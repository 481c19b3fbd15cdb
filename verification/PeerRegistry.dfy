/** The registry of connected peers: four maps that must agree, and the cancel functions of
    the streams being handled. */
module PeerRegistry {
  import opened Prelude
  import opened P2P

  datatype PeerID = PeerID(key: nat)
  datatype Conn = Conn(key: nat)
  datatype Stream = Stream(key: nat)
  datatype Cancel = Cancel(key: nat)

  datatype Maps = Maps(
    overlays: map<PeerID, Peer>,
    underlays: map<Address, PeerID>,
    connections: map<PeerID, set<Conn>>,
    streams: map<PeerID, map<Stream, Cancel>>)

  /** The maps name the same peers, overlays and underlays are inverse to each other, and no
      peer is left without a connection. */
  ghost predicate Agree(r: Maps) {
    && (forall id :: id in r.connections <==> id in r.overlays)
    && (forall id :: id in r.streams <==> id in r.overlays)
    && (forall id :: id in r.overlays ==> r.overlays[id].addr in r.underlays && r.underlays[r.overlays[id].addr] == id)
    && (forall a :: a in r.underlays ==> r.underlays[a] in r.overlays && r.overlays[r.underlays[a]].addr == a)
    && (forall id :: id in r.connections ==> r.connections[id] != {})
  }

  const Nobody: Maps := Maps(map[], map[], map[], map[])

  function ConnsOf(r: Maps, id: PeerID): set<Conn> {
    if id in r.connections then r.connections[id] else {}
  }

  function StreamsOf(r: Maps, id: PeerID): map<Stream, Cancel> {
    if id in r.streams then r.streams[id] else map[]
  }

  function PeerAdded(r: Maps, c: Conn, id: PeerID, p: Peer): (Maps, bool) {
    var conns := r.connections[id := ConnsOf(r, id) + {c}];
    if p.addr in r.underlays then (r.(connections := conns), true)
    else
      (Maps(r.overlays[id := p], r.underlays[p.addr := id], conns, r.streams[id := map[]]), false)
  }

  /** The peer whose last tracked connection was `c`. */
  function Leaving(r: Maps, c: Conn, id: PeerID): Option<Peer> {
    if id in r.connections && r.connections[id] - {c} == {} && id in r.overlays
    then Some(r.overlays[id]) else None
  }

  function ConnGone(r: Maps, c: Conn, id: PeerID): Maps {
    if id !in r.connections then r
    else if r.connections[id] - {c} != {} then r.(connections := r.connections[id := r.connections[id] - {c}])
    else
      Maps(r.overlays - {id},
           if id in r.overlays then r.underlays - {r.overlays[id].addr} else r.underlays,
           r.connections - {id},
           r.streams - {id})
  }

  function StreamAdded(r: Maps, id: PeerID, st: Stream, cancel: Cancel): Maps {
    if id !in r.streams then r else r.(streams := r.streams[id := r.streams[id][st := cancel]])
  }

  function StreamRemoved(r: Maps, id: PeerID, st: Stream): Maps {
    if id in r.streams && st in r.streams[id] then r.(streams := r.streams[id := r.streams[id] - {st}]) else r
  }

  /** Adding a peer keeps the maps in agreement exactly when its address and its peer ID are
      both registered or both new. */
  lemma AddAgreesExactly(r: Maps, c: Conn, id: PeerID, p: Peer)
    requires Agree(r)
    ensures Agree(PeerAdded(r, c, id, p).0) <==> (p.addr in r.underlays <==> id in r.overlays)
  {
    var r' := PeerAdded(r, c, id, p).0;
    if p.addr in r.underlays && id !in r.overlays {
      assert id in r'.connections && id !in r'.overlays;
    }
    if p.addr !in r.underlays && id in r.overlays {
      var a := r.overlays[id].addr;
      assert a in r'.underlays && r'.underlays[a] == id && r'.overlays[id].addr == p.addr;
    }
  }

  lemma ConnGoneAgrees(r: Maps, c: Conn, id: PeerID)
    requires Agree(r)
    ensures Agree(ConnGone(r, c, id))
    ensures Leaving(r, c, id).Some? <==> id in r.connections && r.connections[id] <= {c}
    ensures Leaving(r, c, id).Some? ==> id !in ConnGone(r, c, id).overlays && r.overlays[id] == Leaving(r, c, id).value
    ensures Leaving(r, c, id).None? ==> ConnGone(r, c, id).overlays == r.overlays
  {
  }

  lemma OverlayPresent(r: Maps, id: PeerID)
    requires Agree(r) && id in r.connections
    ensures id in r.overlays && id in r.streams
  {
  }

  lemma StreamAgrees(r: Maps, id: PeerID, st: Stream, cancel: Cancel)
    requires Agree(r)
    ensures Agree(StreamAdded(r, id, st, cancel))
    ensures Agree(StreamRemoved(r, id, st))
  {
  }

  /** Looking up a peer by address or by peer ID is the same thing. */
  lemma LookupsAgree(r: Maps, id: PeerID, a: Address)
    requires Agree(r)
    ensures (a in r.underlays && r.underlays[a] == id) <==> (id in r.overlays && r.overlays[id].addr == a)
  {
  }

  function CancelsAt(keys: seq<Stream>, m: map<Stream, Cancel>): seq<Cancel>
    requires forall st :: st in keys ==> st in m
  {
    if keys == [] then []
    else CancelsAt(keys[..|keys| - 1], m) + [m[keys[|keys| - 1]]]
  }

  ghost predicate ListingOf(keys: seq<Stream>, m: map<Stream, Cancel>) {
    NoDuplicates(keys) && forall st :: st in keys <==> st in m
  }

  /** Between `was` and `now` every cancel function of `m` was invoked, once each. */
  ghost predicate CancelledAll(was: seq<Cancel>, now: seq<Cancel>, m: map<Stream, Cancel>) {
    exists keys :: ListingOf(keys, m) && now == was + CancelsAt(keys, m)
  }

  class Registry {
    var overlays: map<PeerID, Peer>
    var underlays: map<Address, PeerID>
    var connections: map<PeerID, set<Conn>>
    var streams: map<PeerID, map<Stream, Cancel>>
    /** Cancel functions invoked and disconnection callbacks made, in order. */
    var invoked: seq<Cancel>
    var notified: seq<Peer>

    ghost function View(): Maps
      reads this
    {
      Maps(overlays, underlays, connections, streams)
    }

    constructor ()
      ensures View() == Nobody && invoked == [] && notified == []
    {
      overlays, underlays, connections, streams := map[], map[], map[], map[];
      invoked, notified := [], [];
    }

    method AddPeer(c: Conn, id: PeerID, p: Peer) returns (known: bool)
      modifies this`overlays, this`underlays, this`connections, this`streams
      ensures (View(), known) == PeerAdded(old(View()), c, id, p)
      ensures known <==> p.addr in old(underlays)
      ensures connections == old(connections)[id := (if id in old(connections) then old(connections)[id] else {}) + {c}]
      ensures known ==> overlays == old(overlays) && underlays == old(underlays) && streams == old(streams)
      ensures !known ==>
                && overlays == old(overlays)[id := p] && underlays == old(underlays)[p.addr := id]
                && streams == old(streams)[id := map[]]
    {
      if id !in connections {
        connections := connections[id := {}];
      }
      connections := connections[id := connections[id] + {c}];
      assert connections == old(connections)[id := ConnsOf(old(View()), id) + {c}];
      if p.addr in underlays {
        return true;
      }
      overlays := overlays[id := p];
      underlays := underlays[p.addr := id];
      streams := streams[id := map[]];
      return false;
    }

    /** Agreement of the maps makes the overlay of a leaving peer present. */
    method Disconnected(c: Conn, id: PeerID)
      requires Agree(View())
      modifies this
      ensures Agree(View())
      ensures View() == ConnGone(old(View()), c, id)
      ensures id !in old(connections) ==> View() == old(View()) && notified == old(notified)
      ensures id in old(connections) && old(connections)[id] != {c} ==>
                && connections == old(connections)[id := old(connections)[id] - {c}]
                && overlays == old(overlays) && underlays == old(underlays) && streams == old(streams)
                && notified == old(notified)
      ensures id in old(connections) && old(connections)[id] == {c} ==>
                && connections == old(connections) - {id} && overlays == old(overlays) - {id} && streams == old(streams) - {id}
                && id in old(overlays) && underlays == old(underlays) - {old(overlays)[id].addr}
                && notified == old(notified) + [old(overlays)[id]]
      ensures var left := Leaving(old(View()), c, id);
        && notified == old(notified) + (if left.Some? then [left.value] else [])
        && (left.None? ==> invoked == old(invoked))
        && (left.Some? ==> CancelledAll(old(invoked), invoked, StreamsOf(old(View()), id)))
    {
      ConnGoneAgrees(View(), c, id);
      hide Agree, CancelledAll;
      if id !in connections {
        return;
      }
      connections := connections[id := connections[id] - {c}];
      if connections[id] != {} {
        return;
      }
      connections := connections - {id};
      assert connections == old(connections) - {id};
      OverlayPresent(old(View()), id);
      var peer := overlays[id];
      overlays := overlays - {id};
      underlays := underlays - {peer.addr};
      CancelAll(id);
      streams := streams - {id};
      notified := notified + [peer];
    }

    method CancelAll(id: PeerID)
      requires id in streams
      modifies this`invoked
      ensures CancelledAll(old(invoked), invoked, streams[id])
    {
      var mine := streams[id];
      var keys := Range(mine);
      for i := 0 to |keys|
        invariant invoked == old(invoked) + CancelsAt(keys[..i], mine)
      {
        assert keys[..i + 1][..i] == keys[..i];
        invoked := invoked + [mine[keys[i]]];
      }
      assert keys[..|keys|] == keys;
      assert ListingOf(keys, mine);
    }

    method AddStream(id: PeerID, stream: Stream, cancel: Cancel)
      modifies this`streams
      ensures View() == StreamAdded(old(View()), id, stream, cancel)
      ensures streams == if id in old(streams) then old(streams)[id := old(streams)[id][stream := cancel]] else old(streams)
    {
      if id !in streams {
        return;
      }
      streams := streams[id := streams[id][stream := cancel]];
    }

    method RemoveStream(id: PeerID, stream: Stream)
      modifies this`streams, this`invoked
      ensures View() == StreamRemoved(old(View()), id, stream)
      ensures id in old(streams) ==> streams == old(streams)[id := old(streams)[id] - {stream}]
      ensures id !in old(streams) ==> streams == old(streams)
      ensures invoked == old(invoked) +
                if stream in StreamsOf(old(View()), id) then [StreamsOf(old(View()), id)[stream]] else []
    {
      if id !in streams {
        return;
      }
      var mine := streams[id];
      if stream !in mine {
        assert mine - {stream} == mine;
        return;
      }
      invoked := invoked + [mine[stream]];
      streams := streams[id := mine - {stream}];
    }

    method GetPeer(id: PeerID) returns (p: Option<Peer>)
      ensures p == if id in overlays then Some(overlays[id]) else None
    {
      p := if id in overlays then Some(overlays[id]) else None;
    }

    method GetPeerID(a: Address) returns (id: Option<PeerID>)
      ensures id == if a in underlays then Some(underlays[a]) else None
    {
      id := if a in underlays then Some(underlays[a]) else None;
    }

    /** Of a registered peer the connections are never missing. */
    method IsConnected(id: PeerID) returns (p: Option<Peer>)
      requires Agree(View())
      ensures p == if id in overlays then Some(overlays[id]) else None
      ensures p.Some? ==> underlays[p.value.addr] == id
    {
      if id !in overlays {
        return None;
      }
      if id !in connections {
        return None;
      }
      return Some(overlays[id]);
    }
  }
}
