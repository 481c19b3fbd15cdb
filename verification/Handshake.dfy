/** The two-party handshake: each side proves its address and type, and each acknowledges
    what it saw. Signatures, the peer-ID key and the provider registry are parameters. */
module Handshake {
  import opened Prelude
  import opened P2P
  import opened PeerRegistry

  type Sig = nat

  datatype Req = Req(peerType: string, token: string, sig: Sig)

  datatype Resp = Resp(observed: Address, peerType: string)

  datatype Msg = ReqMsg(req: Req) | RespMsg(resp: Resp)

  datatype Verdict = Verified(addr: Address) | NotVerified | VerifyError

  /** What a node can look up: who signed, which address a peer ID has, who is staked. */
  datatype Env = Env(verify: (Sig, string) -> Verdict,
                     addrOf: PeerID -> Option<Address>,
                     registered: Address -> bool)

  datatype Error =
    | StreamFailed
    | SignatureVerificationFailed
    | NoAddress
    | ObservedAddressMismatch
    | InsufficientStake
    | BadAcknowledgement

  /** The verified address of a request, or the first check that fails. */
  function CheckReq(env: Env, req: Req, id: PeerID): (r: Outcome<Address, Error>)
    ensures var seen := env.verify(req.sig, req.peerType + req.token);
      r.Ok? <==>
        && seen.Verified?
        && env.addrOf(id) == Some(seen.addr)
        && (FromName(req.peerType).Provider? ==> env.registered(seen.addr))
    ensures r.Ok? ==> env.verify(req.sig, req.peerType + req.token) == Verified(r.value)
    ensures var seen := env.verify(req.sig, req.peerType + req.token);
      && (r == Err(SignatureVerificationFailed) <==> !seen.Verified?)
      && (r == Err(NoAddress) <==> seen.Verified? && env.addrOf(id).None?)
      && (r == Err(ObservedAddressMismatch) <==>
            seen.Verified? && env.addrOf(id).Some? && env.addrOf(id).value != seen.addr)
      && (r == Err(InsufficientStake) <==>
            seen.Verified? && env.addrOf(id) == Some(seen.addr) &&
            req.peerType == "provider" && !env.registered(seen.addr))
  {
    match env.verify(req.sig, req.peerType + req.token)
    case VerifyError => Err(SignatureVerificationFailed)
    case NotVerified => Err(SignatureVerificationFailed)
    case Verified(addr) =>
      if env.addrOf(id).None? then Err(NoAddress)
      else if env.addrOf(id).value != addr then Err(ObservedAddressMismatch)
      else if req.peerType == TypeName(Provider) && !env.registered(addr) then Err(InsufficientStake)
      else Ok(addr)
  }

  predicate Acknowledges(resp: Resp, own: Address, ptype: PeerType) {
    resp.observed == own && resp.peerType == TypeName(ptype)
  }

  /** One end of a message stream; `room` writes will succeed. */
  class MsgStream {
    var incoming: seq<Msg>
    var outgoing: seq<Msg>
    var room: nat

    constructor (incoming: seq<Msg>, room: nat)
      ensures this.incoming == incoming && outgoing == [] && this.room == room
    {
      this.incoming, outgoing, this.room := incoming, [], room;
    }

    method ReadReq() returns (r: Outcome<Req, Error>)
      modifies this`incoming
      ensures r.Ok? <==> old(incoming) != [] && old(incoming)[0].ReqMsg?
      ensures r.Ok? ==> old(incoming) == [ReqMsg(r.value)] + incoming
      ensures r.Err? ==> r.error == StreamFailed
    {
      if incoming == [] || !incoming[0].ReqMsg? {
        return Err(StreamFailed);
      }
      r := Ok(incoming[0].req);
      incoming := incoming[1..];
    }

    method ReadResp() returns (r: Outcome<Resp, Error>)
      modifies this`incoming
      ensures r.Ok? <==> old(incoming) != [] && old(incoming)[0].RespMsg?
      ensures r.Ok? ==> old(incoming) == [RespMsg(r.value)] + incoming
      ensures r.Err? ==> r.error == StreamFailed
    {
      if incoming == [] || !incoming[0].RespMsg? {
        return Err(StreamFailed);
      }
      r := Ok(incoming[0].resp);
      incoming := incoming[1..];
    }

    method Write(m: Msg) returns (ok: bool)
      modifies this`outgoing, this`room
      ensures ok <==> old(room) > 0
      ensures ok ==> outgoing == old(outgoing) + [m] && room == old(room) - 1
      ensures !ok ==> outgoing == old(outgoing) && room == old(room)
    {
      if room == 0 {
        return false;
      }
      outgoing, room := outgoing + [m], room - 1;
      ok := true;
    }
  }

  class Service {
    const env: Env
    const own: Address
    const ptype: PeerType
    var handshakeReq: Req

    constructor (env: Env, own: Address, ptype: PeerType, req: Req)
      ensures this.env == env && this.own == own && this.ptype == ptype && handshakeReq == req
    {
      this.env, this.own, this.ptype, handshakeReq := env, own, ptype, req;
    }

    /** The request sent to every peer is built and signed once; without a signature there is
        no service. A verifier that recognises this node's signatures accepts the request. */
    static method New(env: Env, own: Address, ptype: PeerType, passcode: string, sign: string -> Option<Sig>)
      returns (s: Service?)
      ensures s == null <==> sign(TypeName(ptype) + passcode).None?
      ensures s != null ==>
        && fresh(s) && s.env == env && s.own == own && s.ptype == ptype
        && s.handshakeReq.peerType == TypeName(ptype) && s.handshakeReq.token == passcode
      ensures s != null ==>
        forall verify: (Sig, string) -> Verdict ::
          (forall text :: sign(text).Some? ==> verify(sign(text).value, text) == Verified(own)) ==>
          verify(s.handshakeReq.sig, s.handshakeReq.peerType + s.handshakeReq.token) == Verified(own)
    {
      var sig := sign(TypeName(ptype) + passcode);
      if sig.None? {
        return null;
      }
      s := new Service(env, own, ptype, Req(TypeName(ptype), passcode, sig.value));
    }

    /** The responder. It returns a peer exactly when the request checks out and is answered,
        and the acknowledgement names this node; the peer then has the address of its peer ID,
        and is a provider only if registered. */
    method Handle(stream: MsgStream, id: PeerID) returns (r: Outcome<Peer, Error>)
      modifies stream
      ensures var seen := old(stream.incoming);
        r.Ok? <==>
          && |seen| >= 2 && seen[0].ReqMsg? && seen[1].RespMsg?
          && CheckReq(env, seen[0].req, id).Ok?
          && old(stream.room) >= 2
          && seen[1].resp.observed == own && seen[1].resp.peerType == TypeName(ptype)
      ensures r.Ok? ==>
        var req := old(stream.incoming)[0].req;
        && env.addrOf(id) == Some(r.value.addr)
        && (r.value.ptype.Provider? ==> env.registered(r.value.addr))
        && r.value == Peer(CheckReq(env, req, id).value, FromName(req.peerType))
        && stream.outgoing == old(stream.outgoing) + [RespMsg(Resp(r.value.addr, req.peerType)), ReqMsg(handshakeReq)]
        && stream.incoming == old(stream.incoming)[2..]
      ensures old(stream.incoming) != [] && old(stream.incoming)[0].ReqMsg? && CheckReq(env, old(stream.incoming)[0].req, id).Err? ==>
        r == Err(CheckReq(env, old(stream.incoming)[0].req, id).error) && stream.outgoing == old(stream.outgoing)
      ensures var seen := old(stream.incoming);
        r.Err? && !(seen != [] && seen[0].ReqMsg? && CheckReq(env, seen[0].req, id).Err?) ==>
          if |seen| >= 2 && seen[0].ReqMsg? && seen[1].RespMsg? && old(stream.room) >= 2
          then r.error == BadAcknowledgement else r.error == StreamFailed
    {
      var req := stream.ReadReq();
      if req.Err? {
        return Err(StreamFailed);
      }
      var addr := CheckReq(env, req.value, id);
      if addr.Err? {
        return Err(addr.error);
      }
      var ok := stream.Write(RespMsg(Resp(addr.value, req.value.peerType)));
      if !ok {
        return Err(StreamFailed);
      }
      ok := stream.Write(ReqMsg(handshakeReq));
      if !ok {
        return Err(StreamFailed);
      }
      var ack := stream.ReadResp();
      if ack.Err? {
        return Err(StreamFailed);
      }
      if !Acknowledges(ack.value, own, ptype) {
        return Err(BadAcknowledgement);
      }
      r := Ok(Peer(addr.value, FromName(req.value.peerType)));
    }

    /** The initiator. It returns a peer exactly when it was acknowledged, the responder's own
        request checks out, and the final acknowledgement could be written. */
    method Handshake(id: PeerID, stream: MsgStream) returns (r: Outcome<Peer, Error>)
      modifies stream
      ensures var seen := old(stream.incoming);
        r.Ok? <==>
          && |seen| >= 2 && seen[0].RespMsg? && seen[1].ReqMsg?
          && seen[0].resp.observed == own && seen[0].resp.peerType == TypeName(ptype)
          && CheckReq(env, seen[1].req, id).Ok?
          && old(stream.room) >= 2
      ensures var seen := old(stream.incoming);
        r.Err? ==>
          r.error ==
            if old(stream.room) == 0 || seen == [] || !seen[0].RespMsg? then StreamFailed
            else if !(seen[0].resp.observed == own && seen[0].resp.peerType == TypeName(ptype)) then BadAcknowledgement
            else if |seen| == 1 || !seen[1].ReqMsg? then StreamFailed
            else if CheckReq(env, seen[1].req, id).Err? then CheckReq(env, seen[1].req, id).error
            else StreamFailed
      ensures r.Ok? ==>
        var req := old(stream.incoming)[1].req;
        && env.addrOf(id) == Some(r.value.addr)
        && (r.value.ptype.Provider? ==> env.registered(r.value.addr))
        && r.value == Peer(CheckReq(env, req, id).value, FromName(req.peerType))
        && stream.outgoing == old(stream.outgoing) + [ReqMsg(handshakeReq), RespMsg(Resp(r.value.addr, req.peerType))]
        && stream.incoming == old(stream.incoming)[2..]
    {
      var ok := stream.Write(ReqMsg(handshakeReq));
      if !ok {
        return Err(StreamFailed);
      }
      var resp := stream.ReadResp();
      if resp.Err? {
        return Err(StreamFailed);
      }
      if !Acknowledges(resp.value, own, ptype) {
        return Err(BadAcknowledgement);
      }
      var ack := stream.ReadReq();
      if ack.Err? {
        return Err(StreamFailed);
      }
      var addr := CheckReq(env, ack.value, id);
      if addr.Err? {
        return Err(addr.error);
      }
      ok := stream.Write(RespMsg(Resp(addr.value, ack.value.peerType)));
      if !ok {
        return Err(StreamFailed);
      }
      r := Ok(Peer(addr.value, FromName(ack.value.peerType)));
    }
  }
}
