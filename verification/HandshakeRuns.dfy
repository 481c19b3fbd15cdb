/** Two honest sides of a handshake over FIFO streams, in every interleaving. */
module HandshakeRuns {
  import opened Prelude
  import opened P2P
  import opened PeerRegistry
  import opened Handshake

  datatype Node = Node(env: Env, own: Address, ptype: PeerType, req: Req)

  datatype Setup = Setup(initiator: Node, responder: Node, initiatorID: PeerID, responderID: PeerID)

  /** A node announces its own type, signed with its own key, as `New` builds it; the other
      side can tell who signed and which address the peer ID has. */
  ghost predicate Introduces(a: Node, aID: PeerID, b: Node) {
    && a.req.peerType == TypeName(a.ptype)
    && b.env.verify(a.req.sig, a.req.peerType + a.req.token) == Verified(a.own)
    && b.env.addrOf(aID) == Some(a.own)
  }

  ghost predicate Honest(w: Setup) {
    && Introduces(w.initiator, w.initiatorID, w.responder)
    && Introduces(w.responder, w.responderID, w.initiator)
  }

  /** Whether `b` takes `a` for what it is: a provider has to be registered. */
  predicate Welcome(a: Node, b: Node) {
    a.ptype.Provider? ==> b.env.registered(a.own)
  }

  /** Stages of the initiator: write its request, read and check the acknowledgement, read and
      check the request of the other side, acknowledge it, done. Of the responder: read and
      check the request, acknowledge it, write its own request, read and check the final
      acknowledgement, done. A side that fails resets its stream. `iSeen` and `rSeen` are what a
      side knows of the other from its request: the verified address and the type as spelled. */
  datatype State = State(i: nat, r: nat, toR: seq<Msg>, toI: seq<Msg>, iFailed: bool, rFailed: bool,
                         iSeen: Option<Seen>, rSeen: Option<Seen>)

  datatype Seen = Seen(addr: Address, typeName: string)
  {
    /** The acknowledgement written, and the peer returned. */
    function Ack(): Msg {
      RespMsg(Resp(addr, typeName))
    }

    function AsPeer(): Peer {
      Peer(addr, FromName(typeName))
    }
  }

  const Start: State := State(0, 0, [], [], false, false, None, None)

  /** `lost`: the other side has reset the stream, and the read fails even if a message was
      still under way. */
  datatype Event = Initiator(lost: bool) | Responder(lost: bool)

  predicate Enabled(s: State, e: Event) {
    match e
    case Initiator(lost) =>
      && !s.iFailed && s.i < 4
      && (lost ==> s.rFailed && (s.i == 1 || s.i == 2))
      && (!lost && (s.i == 1 || s.i == 2) ==> s.toI != [])
    case Responder(lost) =>
      && !s.rFailed && s.r < 4
      && (lost ==> s.iFailed && (s.r == 0 || s.r == 3))
      && (!lost && (s.r == 0 || s.r == 3) ==> s.toR != [])
  }

  function InitiatorStep(w: Setup, s: State): State
    requires Enabled(s, Initiator(false))
  {
    var me := w.initiator;
    if s.i == 0 then s.(i := 1, toR := s.toR + [ReqMsg(me.req)])
    else if s.i == 1 then
      if s.toI[0].RespMsg? && Acknowledges(s.toI[0].resp, me.own, me.ptype)
      then s.(i := 2, toI := s.toI[1..]) else s.(iFailed := true)
    else if s.i == 2 then
      if s.toI[0].ReqMsg? && CheckReq(me.env, s.toI[0].req, w.responderID).Ok?
      then
        var addr := CheckReq(me.env, s.toI[0].req, w.responderID).value;
        s.(i := 3, toI := s.toI[1..], iSeen := Some(Seen(addr, s.toI[0].req.peerType)))
      else s.(iFailed := true)
    else if s.iSeen.Some?
    then s.(i := 4, toR := s.toR + [s.iSeen.value.Ack()])
    else s.(iFailed := true)
  }

  function ResponderStep(w: Setup, s: State): State
    requires Enabled(s, Responder(false))
  {
    var me := w.responder;
    if s.r == 0 then
      if s.toR[0].ReqMsg? && CheckReq(me.env, s.toR[0].req, w.initiatorID).Ok?
      then
        var addr := CheckReq(me.env, s.toR[0].req, w.initiatorID).value;
        s.(r := 1, toR := s.toR[1..], rSeen := Some(Seen(addr, s.toR[0].req.peerType)))
      else s.(rFailed := true)
    else if s.r == 1 then
      if s.rSeen.Some?
      then s.(r := 2, toI := s.toI + [s.rSeen.value.Ack()])
      else s.(rFailed := true)
    else if s.r == 2 then s.(r := 3, toI := s.toI + [ReqMsg(me.req)])
    else
      if s.toR[0].RespMsg? && Acknowledges(s.toR[0].resp, me.own, me.ptype)
      then s.(r := 4, toR := s.toR[1..]) else s.(rFailed := true)
  }

  /** One side running on its own for as long as it can. */
  function ResponderAlone(w: Setup, s: State): State
    decreases 4 - s.r + if s.rFailed then 0 else 1
  {
    if Enabled(s, Responder(false)) then ResponderAlone(w, ResponderStep(w, s)) else s
  }

  function InitiatorAlone(w: Setup, s: State): State
    decreases 4 - s.i + if s.iFailed then 0 else 1
  {
    if Enabled(s, Initiator(false)) then InitiatorAlone(w, InitiatorStep(w, s)) else s
  }

  /** Whatever it receives, honest or not, the responder taken step by step returns when
      `Service.Handle` does, the same peer, having written the same messages. */
  lemma StepsOfHandle(w: Setup, incoming: seq<Msg>)
    ensures var t := ResponderAlone(w, Start.(toR := incoming));
      && (t.r == 4 <==>
            && |incoming| >= 2 && incoming[0].ReqMsg? && incoming[1].RespMsg?
            && CheckReq(w.responder.env, incoming[0].req, w.initiatorID).Ok?
            && incoming[1].resp.observed == w.responder.own
            && incoming[1].resp.peerType == TypeName(w.responder.ptype))
      && (t.r == 4 ==>
            var addr := CheckReq(w.responder.env, incoming[0].req, w.initiatorID).value;
            && t.rSeen.Some? && t.rSeen.value.AsPeer() == Peer(addr, FromName(incoming[0].req.peerType))
            && t.toR == incoming[2..]
            && t.toI == [RespMsg(Resp(addr, incoming[0].req.peerType)), ReqMsg(w.responder.req)])
  {
    hide CheckReq, FromName, TypeName;
    var s0 := Start.(toR := incoming);
    if Enabled(s0, Responder(false)) {
      var s1 := ResponderStep(w, s0);
      if s1.r == 1 {
        var s2 := ResponderStep(w, s1);
        var s3 := ResponderStep(w, s2);
        assert s3.r == 3 && s3.toR == incoming[1..];
        assert ResponderAlone(w, s1) == ResponderAlone(w, s2) == ResponderAlone(w, s3);
        if Enabled(s3, Responder(false)) {
          var s4 := ResponderStep(w, s3);
          assert ResponderAlone(w, s3) == ResponderAlone(w, s4) == s4;
        }
      }
    }
  }

  lemma StepsOfHandshake(w: Setup, incoming: seq<Msg>)
    ensures var t := InitiatorAlone(w, Start.(toI := incoming));
      && (t.i == 4 <==>
            && |incoming| >= 2 && incoming[0].RespMsg? && incoming[1].ReqMsg?
            && incoming[0].resp.observed == w.initiator.own
            && incoming[0].resp.peerType == TypeName(w.initiator.ptype)
            && CheckReq(w.initiator.env, incoming[1].req, w.responderID).Ok?)
      && (t.i == 4 ==>
            var addr := CheckReq(w.initiator.env, incoming[1].req, w.responderID).value;
            && t.iSeen.Some? && t.iSeen.value.AsPeer() == Peer(addr, FromName(incoming[1].req.peerType))
            && t.toI == incoming[2..]
            && t.toR == [ReqMsg(w.initiator.req), RespMsg(Resp(addr, incoming[1].req.peerType))])
  {
    hide CheckReq, FromName, TypeName;
    var s1 := InitiatorStep(w, Start.(toI := incoming));
    assert InitiatorAlone(w, Start.(toI := incoming)) == InitiatorAlone(w, s1);
    if Enabled(s1, Initiator(false)) {
      var s2 := InitiatorStep(w, s1);
      assert s2.i == 2 ==> s2.toI == incoming[1..];
      if s2.i == 2 && Enabled(s2, Initiator(false)) {
        var s3 := InitiatorStep(w, s2);
        assert InitiatorAlone(w, s1) == InitiatorAlone(w, s2) == InitiatorAlone(w, s3);
        if s3.i == 3 {
          var s4 := InitiatorStep(w, s3);
          assert InitiatorAlone(w, s3) == InitiatorAlone(w, s4) == s4;
          assert s4.toI == incoming[2..];
        }
      }
    }
  }

  /** A side that is acknowledged under another address or as another type does not return,
      whatever else it is sent. */
  lemma WrongAckFails(w: Setup, incoming: seq<Msg>)
    ensures |incoming| >= 2 && incoming[1].RespMsg? &&
            (incoming[1].resp.observed != w.responder.own || incoming[1].resp.peerType != TypeName(w.responder.ptype)) ==>
              ResponderAlone(w, Start.(toR := incoming)).r != 4
    ensures |incoming| >= 1 && incoming[0].RespMsg? &&
            (incoming[0].resp.observed != w.initiator.own || incoming[0].resp.peerType != TypeName(w.initiator.ptype)) ==>
              InitiatorAlone(w, Start.(toI := incoming)).i != 4
  {
    StepsOfHandle(w, incoming);
    StepsOfHandshake(w, incoming);
    hide ResponderAlone, InitiatorAlone, TypeName, CheckReq;
  }

  function Apply(w: Setup, s: State, e: Event): State
    requires Enabled(s, e)
  {
    match e
    case Initiator(lost) => if lost then s.(iFailed := true) else InitiatorStep(w, s)
    case Responder(lost) => if lost then s.(rFailed := true) else ResponderStep(w, s)
  }

  predicate CanRun(w: Setup, s: State, events: seq<Event>)
    decreases |events|
  {
    events == [] || (Enabled(s, events[0]) && CanRun(w, Apply(w, s, events[0]), events[1..]))
  }

  function Run(w: Setup, s: State, events: seq<Event>): State
    requires CanRun(w, s, events)
    decreases |events|
  {
    if events == [] then s else Run(w, Apply(w, s, events[0]), events[1..])
  }

  // ---------------------------------------------------------------- the invariant

  /** What is under way to the responder, and to the initiator, at given stages. */
  function ToResponder(w: Setup, i: nat, r: nat): seq<Msg> {
    if r == 0 then (if i == 0 then [] else [ReqMsg(w.initiator.req)])
    else if r < 4 && i == 4 then [RespMsg(Resp(w.responder.own, w.responder.req.peerType))]
    else []
  }

  function ToInitiator(w: Setup, i: nat, r: nat): seq<Msg> {
    (if i <= 1 && r >= 2 then [RespMsg(Resp(w.initiator.own, w.initiator.req.peerType))] else []) +
    (if i <= 2 && r >= 3 then [ReqMsg(w.responder.req)] else [])
  }

  ghost predicate Inv(w: Setup, s: State) {
    && s.i <= 4 && s.r <= 4
    && (s.r >= 1 ==> s.i >= 1 && Welcome(w.initiator, w.responder))
    && (s.i >= 2 ==> s.r >= 2)
    && (s.i >= 3 ==> s.r >= 3 && Welcome(w.responder, w.initiator))
    && (s.r == 4 ==> s.i == 4)
    && s.toR == ToResponder(w, s.i, s.r)
    && s.toI == ToInitiator(w, s.i, s.r)
    && (s.r >= 1 ==> s.rSeen == Some(Seen(w.initiator.own, w.initiator.req.peerType)))
    && (s.i >= 3 ==> s.iSeen == Some(Seen(w.responder.own, w.responder.req.peerType)))
    && (s.rFailed ==> s.r < 4 && (!Welcome(w.initiator, w.responder) || s.iFailed))
    && (s.iFailed ==> s.i < 4 && (!Welcome(w.responder, w.initiator) || s.rFailed))
    && (s.rFailed && s.iFailed ==> !Welcome(w.initiator, w.responder) || !Welcome(w.responder, w.initiator))
  }

  /** An honest request is accepted exactly when its sender is welcome. */
  lemma HonestReq(a: Node, aID: PeerID, b: Node)
    requires Introduces(a, aID, b)
    ensures CheckReq(b.env, a.req, aID) == if Welcome(a, b) then Ok(a.own) else Err(InsufficientStake)
    ensures FromName(a.req.peerType) == a.ptype
  {
    TypeRoundTrip(a.ptype);
  }

  lemma ResponderKeeps(w: Setup, s: State)
    requires Honest(w) && Inv(w, s) && Enabled(s, Responder(false))
    ensures Inv(w, ResponderStep(w, s))
  {
    HonestReq(w.initiator, w.initiatorID, w.responder);
    hide CheckReq, TypeName, FromName;
  }

  lemma InitiatorKeeps(w: Setup, s: State)
    requires Honest(w) && Inv(w, s) && Enabled(s, Initiator(false))
    ensures Inv(w, InitiatorStep(w, s))
  {
    HonestReq(w.responder, w.responderID, w.initiator);
    hide CheckReq, TypeName, FromName;
  }

  lemma LostKeeps(w: Setup, s: State, e: Event)
    requires Inv(w, s) && Enabled(s, e) && e.lost
    ensures Inv(w, Apply(w, s, e))
  {
    hide ToResponder, ToInitiator, Welcome;
  }

  lemma StepKeeps(w: Setup, s: State, e: Event)
    requires Honest(w) && Inv(w, s) && Enabled(s, e)
    ensures Inv(w, Apply(w, s, e))
    ensures Left(Apply(w, s, e)) < Left(s)
  {
    if e.lost {
      LostKeeps(w, s, e);
    } else if e.Initiator? {
      InitiatorKeeps(w, s);
    } else {
      ResponderKeeps(w, s);
    }
    hide Inv, Honest, CheckReq, TypeName, FromName, Welcome, Acknowledges;
  }

  lemma {:induction false} RunKeeps(w: Setup, s: State, events: seq<Event>)
    requires Honest(w) && Inv(w, s) && CanRun(w, s, events)
    ensures Inv(w, Run(w, s, events))
    ensures |events| <= Left(s) - Left(Run(w, s, events))
    decreases |events|
  {
    if events != [] {
      StepKeeps(w, s, events[0]);
      hide Inv, Honest, Enabled, Apply, Left;
      RunKeeps(w, Apply(w, s, events[0]), events[1..]);
    }
  }

  /** The steps still to come, at most. */
  function Left(s: State): int {
    10 - s.i - s.r - (if s.iFailed then 1 else 0) - (if s.rFailed then 1 else 0)
  }

  /** No side waits for ever: while one has neither returned nor failed, some step can be
      taken, and no run is longer than ten steps. */
  lemma NoDeadlock(w: Setup, events: seq<Event>)
    requires Honest(w) && CanRun(w, Start, events)
    ensures |events| <= 10
    ensures var s := Run(w, Start, events);
      (s.i < 4 && !s.iFailed) || (s.r < 4 && !s.rFailed) ==> exists e :: Enabled(s, e)
  {
    RunKeeps(w, Start, events);
    var s := Run(w, Start, events);
    assert Enabled(s, Initiator(false)) || Enabled(s, Initiator(true)) || Enabled(s, Responder(false)) ||
      Enabled(s, Responder(true)) || ((s.i == 4 || s.iFailed) && (s.r == 4 || s.rFailed));
  }

  /** A run that has come to its end: both sides returned the other's address and type if
      each is welcome, and otherwise neither returned. */
  lemma HandshakeExactly(w: Setup, events: seq<Event>)
    requires Honest(w) && CanRun(w, Start, events)
    requires forall e :: !Enabled(Run(w, Start, events), e)
    ensures var s := Run(w, Start, events);
      if Welcome(w.initiator, w.responder) && Welcome(w.responder, w.initiator) then
        && s.i == 4 && s.r == 4 && !s.iFailed && !s.rFailed
        && s.iSeen.Some? && s.iSeen.value.AsPeer() == Peer(w.responder.own, w.responder.ptype)
        && s.rSeen.Some? && s.rSeen.value.AsPeer() == Peer(w.initiator.own, w.initiator.ptype)
      else s.iFailed && s.rFailed
  {
    RunKeeps(w, Start, events);
    HonestReq(w.initiator, w.initiatorID, w.responder);
    HonestReq(w.responder, w.responderID, w.initiator);
    hide CheckReq, TypeName, FromName, Welcome;
    var s := Run(w, Start, events);
    assert !Enabled(s, Initiator(false)) && !Enabled(s, Initiator(true));
    assert !Enabled(s, Responder(false)) && !Enabled(s, Responder(true));
  }

  /** The responder returns only after the initiator has verified it and written its
      acknowledgement. */
  lemma ResponderLast(w: Setup, events: seq<Event>)
    requires Honest(w) && CanRun(w, Start, events) && Run(w, Start, events).r == 4
    ensures Run(w, Start, events).i == 4 && !Run(w, Start, events).iFailed
  {
    RunKeeps(w, Start, events);
  }
}
