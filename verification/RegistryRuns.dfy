/** Whole runs of the peer registry. Peers come from completed handshakes, so their address
    is the one derived from the peer ID. */
module RegistryRuns {
  import opened Prelude
  import opened P2P
  import opened PeerRegistry

  /** The rest is history: `joined` counts the `addPeer` calls that returned false, `home`
      remembers where every cancel function that entered the table was put, and `open` are the
      connections that were added and have not closed since. */
  datatype Reg = Reg(maps: Maps, invoked: seq<Cancel>, notified: seq<Peer>, joined: nat,
                     home: map<Cancel, (PeerID, Stream)>, open: set<(PeerID, Conn)>)

  datatype Event =
    | AddPeer(c: Conn, id: PeerID, p: Peer)
    | ConnClosed(c: Conn, id: PeerID, order: seq<Stream>)
    | AddStream(id: PeerID, st: Stream, cancel: Cancel)
    | RemoveStream(id: PeerID, st: Stream)

  const Start: Reg := Reg(Nobody, [], [], 0, map[], {})

  /** A stream is handled once, with a cancel function of its own; a closing connection
      cancels the streams of its peer in some order. */
  ghost predicate Enabled(addrOf: PeerID -> Address, s: Reg, e: Event) {
    match e
    case AddPeer(_, id, p) => p.addr == addrOf(id)
    case ConnClosed(_, id, order) => ListingOf(order, StreamsOf(s.maps, id))
    case AddStream(id, st, cancel) => cancel !in s.home && st !in StreamsOf(s.maps, id)
    case RemoveStream(_, _) => true
  }

  function Apply(s: Reg, e: Event): Reg
    requires e.ConnClosed? ==> forall st :: st in e.order ==> st in StreamsOf(s.maps, e.id)
  {
    match e
    case AddPeer(c, id, p) =>
      var r := PeerAdded(s.maps, c, id, p);
      s.(maps := r.0, joined := s.joined + (if r.1 then 0 else 1), open := s.open + {(id, c)})
    case ConnClosed(c, id, order) =>
      var left := Leaving(s.maps, c, id);
      var s1 := s.(maps := ConnGone(s.maps, c, id), open := s.open - {(id, c)});
      if left.None? then s1
      else s1.(notified := s.notified + [left.value], invoked := s.invoked + CancelsAt(order, StreamsOf(s.maps, id)))
    case AddStream(id, st, cancel) =>
      if id in s.maps.streams
      then s.(maps := StreamAdded(s.maps, id, st, cancel), home := s.home[cancel := (id, st)])
      else s
    case RemoveStream(id, st) =>
      if st in StreamsOf(s.maps, id)
      then s.(maps := StreamRemoved(s.maps, id, st), invoked := s.invoked + [StreamsOf(s.maps, id)[st]])
      else s
  }

  /** The steps are possible whenever the methods of `Registry` can be called for them, and
      leave the maps, the cancel functions and the callbacks as those methods ensure. */
  lemma StepsFollow(addrOf: PeerID -> Address, s: Reg, c: Conn, id: PeerID, p: Peer, st: Stream, cancel: Cancel, order: seq<Stream>)
    requires p.addr == addrOf(id) && ListingOf(order, StreamsOf(s.maps, id))
    ensures Enabled(addrOf, s, AddPeer(c, id, p)) && Apply(s, AddPeer(c, id, p)).maps == PeerAdded(s.maps, c, id, p).0
    ensures Apply(s, AddPeer(c, id, p)).joined == s.joined + if p.addr in s.maps.underlays then 0 else 1
    ensures Enabled(addrOf, s, ConnClosed(c, id, order)) && Apply(s, ConnClosed(c, id, order)).maps == ConnGone(s.maps, c, id)
    ensures var left := Leaving(s.maps, c, id); var t := Apply(s, ConnClosed(c, id, order));
      && t.notified == s.notified + (if left.Some? then [left.value] else [])
      && (if left.Some? then CancelledAll(s.invoked, t.invoked, StreamsOf(s.maps, id)) else t.invoked == s.invoked)
    ensures cancel !in s.home && st !in StreamsOf(s.maps, id) ==>
              && Enabled(addrOf, s, AddStream(id, st, cancel))
              && Apply(s, AddStream(id, st, cancel)).maps == StreamAdded(s.maps, id, st, cancel)
    ensures Enabled(addrOf, s, RemoveStream(id, st)) && Apply(s, RemoveStream(id, st)).maps == StreamRemoved(s.maps, id, st)
    ensures Apply(s, RemoveStream(id, st)).invoked ==
              s.invoked + if st in StreamsOf(s.maps, id) then [StreamsOf(s.maps, id)[st]] else []
  {
    hide ConnGone;
  }

  ghost predicate CanRun(addrOf: PeerID -> Address, s: Reg, events: seq<Event>)
    decreases |events|
  {
    events == [] || (Enabled(addrOf, s, events[0]) && CanRun(addrOf, Apply(s, events[0]), events[1..]))
  }

  ghost function Run(addrOf: PeerID -> Address, s: Reg, events: seq<Event>): Reg
    requires CanRun(addrOf, s, events)
    decreases |events|
  {
    if events == [] then s else Run(addrOf, Apply(s, events[0]), events[1..])
  }

  /** A peer comes in under an address that is registered for another peer ID. */
  predicate Clashes(s: Reg, e: Event) {
    e.AddPeer? && e.p.addr in s.maps.underlays && s.maps.underlays[e.p.addr] != e.id
  }

  ghost predicate EverClashes(addrOf: PeerID -> Address, s: Reg, events: seq<Event>)
    requires CanRun(addrOf, s, events)
    decreases |events|
  {
    events != [] && (Clashes(s, events[0]) || EverClashes(addrOf, Apply(s, events[0]), events[1..]))
  }

  ghost predicate AlwaysAgree(addrOf: PeerID -> Address, s: Reg, events: seq<Event>)
    requires CanRun(addrOf, s, events)
    decreases |events|
  {
    Agree(s.maps) && (events == [] || AlwaysAgree(addrOf, Apply(s, events[0]), events[1..]))
  }

  ghost predicate Linked(addrOf: PeerID -> Address, s: Reg) {
    && Agree(s.maps)
    && (forall id :: id in s.maps.overlays ==> s.maps.overlays[id].addr == addrOf(id))
    && s.joined == |s.maps.overlays| + |s.notified|
  }

  /** The connections of a peer are the ones still open. */
  ghost predicate Tracked(s: Reg) {
    forall id, c :: c in ConnsOf(s.maps, id) <==> (id, c) in s.open
  }

  predicate InTable(s: Reg, k: Cancel)
    requires k in s.home
  {
    var (id, st) := s.home[k];
    st in StreamsOf(s.maps, id) && StreamsOf(s.maps, id)[st] == k
  }

  ghost predicate Cancels(s: Reg) {
    && (forall id, st :: st in StreamsOf(s.maps, id) ==>
          var k := StreamsOf(s.maps, id)[st]; k in s.home && s.home[k] == (id, st))
    && (forall k :: k in s.home ==> (k in s.invoked <==> !InTable(s, k)))
    && (forall k :: k in s.invoked ==> k in s.home)
    && NoDuplicates(s.invoked)
  }

  /** An address and its peer ID are registered together or not at all, but for a clash. */
  lemma RegisteredTogether(addrOf: PeerID -> Address, s: Reg, c: Conn, id: PeerID, p: Peer)
    requires Linked(addrOf, s) && p.addr == addrOf(id)
    ensures p.addr in s.maps.underlays && id !in s.maps.overlays <==> Clashes(s, AddPeer(c, id, p))
    ensures id in s.maps.overlays ==> p.addr in s.maps.underlays
  {
  }

  lemma AddedOverlays(r: Maps, c: Conn, id: PeerID, p: Peer)
    requires p.addr in r.underlays <==> id in r.overlays
    ensures PeerAdded(r, c, id, p).1 <==> id in r.overlays
    ensures PeerAdded(r, c, id, p).0.overlays == if id in r.overlays then r.overlays else r.overlays[id := p]
    ensures |PeerAdded(r, c, id, p).0.overlays| == |r.overlays| + if id in r.overlays then 0 else 1
  {
    if id !in r.overlays {
      assert r.overlays[id := p].Keys == r.overlays.Keys + {id};
    }
  }

  lemma AddLinked(addrOf: PeerID -> Address, s: Reg, c: Conn, id: PeerID, p: Peer)
    requires Linked(addrOf, s) && p.addr == addrOf(id) && !Clashes(s, AddPeer(c, id, p))
    ensures Linked(addrOf, Apply(s, AddPeer(c, id, p)))
  {
    RegisteredTogether(addrOf, s, c, id, p);
    AddAgreesExactly(s.maps, c, id, p);
    AddedOverlays(s.maps, c, id, p);
    hide Agree, PeerAdded;
  }

  lemma ClosedLinked(addrOf: PeerID -> Address, s: Reg, e: Event)
    requires Linked(addrOf, s) && Enabled(addrOf, s, e) && e.ConnClosed?
    ensures Linked(addrOf, Apply(s, e))
  {
    ConnGoneAgrees(s.maps, e.c, e.id);
    hide Agree;
    if Leaving(s.maps, e.c, e.id).Some? {
      var rest := s.maps.overlays - {e.id};
      assert s.maps.overlays.Keys == rest.Keys + {e.id};
    }
  }

  lemma LinkedKept(addrOf: PeerID -> Address, s: Reg, e: Event)
    requires Linked(addrOf, s) && Enabled(addrOf, s, e) && !Clashes(s, e)
    ensures Linked(addrOf, Apply(s, e))
  {
    match e
    case AddPeer(c, id, p) => AddLinked(addrOf, s, c, id, p);
    case ConnClosed(_, _, _) => ClosedLinked(addrOf, s, e);
    case AddStream(id, st, cancel) => StreamAgrees(s.maps, id, st, cancel); hide Agree;
    case RemoveStream(id, st) => StreamAgrees(s.maps, id, st, Cancel(0)); hide Agree;
  }

  lemma TrackedKept(s: Reg, e: Event)
    requires Tracked(s)
    requires e.ConnClosed? ==> ListingOf(e.order, StreamsOf(s.maps, e.id))
    ensures Tracked(Apply(s, e))
  {
    var s' := Apply(s, e);
    match e
    case AddPeer(c, id, p) =>
      assert forall other :: ConnsOf(s'.maps, other) == if other == id then ConnsOf(s.maps, id) + {c} else ConnsOf(s.maps, other);
    case ConnClosed(c, id, _) =>
      assert forall other :: ConnsOf(s'.maps, other) == if other == id then ConnsOf(s.maps, id) - {c} else ConnsOf(s.maps, other);
    case AddStream(_, _, _) =>
    case RemoveStream(_, _) =>
  }

  lemma {:induction false} CancelsAtListing(keys: seq<Stream>, m: map<Stream, Cancel>)
    requires forall st :: st in keys ==> st in m
    requires NoDuplicates(keys)
    requires forall a, b :: a in m && b in m && m[a] == m[b] ==> a == b
    ensures NoDuplicates(CancelsAt(keys, m))
    ensures forall k :: k in CancelsAt(keys, m) <==> exists st :: st in keys && m[st] == k
  {
    if keys != [] {
      var init, last := keys[..|keys| - 1], keys[|keys| - 1];
      assert keys == init + [last];
      CancelsAtListing(init, m);
      assert last !in init;
      var was := CancelsAt(init, m);
      assert forall i :: 0 <= i < |was| ==> was[i] in was;
      assert m[last] !in was;
    }
  }

  /** All the cancel functions of one peer are invoked, and its streams forgotten. */
  lemma CutCancels(s: Reg, s': Reg, id: PeerID, cut: seq<Cancel>)
    requires Cancels(s) && s'.home == s.home && s'.invoked == s.invoked + cut
    requires StreamsOf(s'.maps, id) == map[]
    requires forall other :: other != id ==> StreamsOf(s'.maps, other) == StreamsOf(s.maps, other)
    requires NoDuplicates(cut)
    requires forall k :: k in cut <==> k in s.home && InTable(s, k) && s.home[k].0 == id
    ensures Cancels(s')
  {
    DisjointConcat(s.invoked, cut);
    assert forall k :: k in s'.invoked <==> k in s.invoked || k in cut;
    hide NoDuplicates, StreamsOf;
  }

  lemma ConnClosedCancels(s: Reg, c: Conn, id: PeerID, order: seq<Stream>)
    requires Cancels(s) && ListingOf(order, StreamsOf(s.maps, id))
    requires Leaving(s.maps, c, id).Some?
    ensures Cancels(Apply(s, ConnClosed(c, id, order)))
  {
    var mine := StreamsOf(s.maps, id);
    CancelsAtListing(order, mine);
    ClosedStreams(s.maps, c, id);
    hide ConnGone, Leaving, CancelsAt, StreamsOf, NoDuplicates;
    forall k ensures k in CancelsAt(order, mine) <==> k in s.home && InTable(s, k) && s.home[k].0 == id {
    }
    CutCancels(s, Apply(s, ConnClosed(c, id, order)), id, CancelsAt(order, mine));
  }

  lemma ClosedStreams(r: Maps, c: Conn, id: PeerID)
    requires Leaving(r, c, id).Some?
    ensures StreamsOf(ConnGone(r, c, id), id) == map[]
    ensures forall other :: other != id ==> StreamsOf(ConnGone(r, c, id), other) == StreamsOf(r, other)
  {
  }

  lemma AddKeepsStreams(addrOf: PeerID -> Address, s: Reg, c: Conn, id: PeerID, p: Peer)
    requires Linked(addrOf, s) && p.addr == addrOf(id) && !Clashes(s, AddPeer(c, id, p))
    ensures forall id' :: StreamsOf(Apply(s, AddPeer(c, id, p)).maps, id') == StreamsOf(s.maps, id')
  {
    RegisteredTogether(addrOf, s, c, id, p);
    assert id in s.maps.streams <==> id in s.maps.overlays;
  }

  lemma AddStreamCancels(s: Reg, id: PeerID, st: Stream, cancel: Cancel)
    requires Cancels(s) && cancel !in s.home && st !in StreamsOf(s.maps, id)
    ensures Cancels(Apply(s, AddStream(id, st, cancel)))
  {
    var s' := Apply(s, AddStream(id, st, cancel));
    if id in s.maps.streams {
      assert forall id' :: id' != id ==> StreamsOf(s'.maps, id') == StreamsOf(s.maps, id');
      assert StreamsOf(s'.maps, id) == StreamsOf(s.maps, id)[st := cancel];
    }
  }

  lemma RemoveStreamCancels(s: Reg, id: PeerID, st: Stream)
    requires Cancels(s)
    ensures Cancels(Apply(s, RemoveStream(id, st)))
  {
    var s' := Apply(s, RemoveStream(id, st));
    if st in StreamsOf(s.maps, id) {
      var k := StreamsOf(s.maps, id)[st];
      assert k in s.home && InTable(s, k);
      DisjointConcat(s.invoked, [k]);
      hide NoDuplicates;
      assert forall id' :: id' != id ==> StreamsOf(s'.maps, id') == StreamsOf(s.maps, id');
      assert StreamsOf(s'.maps, id) == StreamsOf(s.maps, id) - {st};
    }
  }

  lemma StayingKeepsStreams(s: Reg, c: Conn, id: PeerID)
    requires Agree(s.maps) && Leaving(s.maps, c, id).None?
    ensures forall id' :: StreamsOf(ConnGone(s.maps, c, id), id') == StreamsOf(s.maps, id')
  {
    ConnGoneAgrees(s.maps, c, id);
  }

  lemma CancelsFrame(s: Reg, s': Reg)
    requires Cancels(s) && s'.home == s.home && s'.invoked == s.invoked
    requires forall id :: StreamsOf(s'.maps, id) == StreamsOf(s.maps, id)
    ensures Cancels(s')
  {
  }

  lemma CancelsKept(addrOf: PeerID -> Address, s: Reg, e: Event)
    requires Linked(addrOf, s) && Cancels(s) && Enabled(addrOf, s, e) && !Clashes(s, e)
    ensures Cancels(Apply(s, e))
  {
    hide Cancels, Agree, InTable;
    match e
    case AddPeer(c, id, p) =>
      AddKeepsStreams(addrOf, s, c, id, p);
      CancelsFrame(s, Apply(s, e));
    case ConnClosed(c, id, order) =>
      if Leaving(s.maps, c, id).Some? {
        ConnClosedCancels(s, c, id, order);
      } else {
        StayingKeepsStreams(s, c, id);
        CancelsFrame(s, Apply(s, e));
      }
    case AddStream(id, st, cancel) => AddStreamCancels(s, id, st, cancel);
    case RemoveStream(id, st) => RemoveStreamCancels(s, id, st);
  }

  lemma {:induction false} RunKeeps(addrOf: PeerID -> Address, s: Reg, events: seq<Event>)
    requires CanRun(addrOf, s, events) && !EverClashes(addrOf, s, events)
    requires Linked(addrOf, s) && Cancels(s) && Tracked(s)
    ensures Linked(addrOf, Run(addrOf, s, events)) && Cancels(Run(addrOf, s, events)) && Tracked(Run(addrOf, s, events))
    decreases |events|
  {
    if events != [] {
      TrackedKept(s, events[0]);
      LinkedKept(addrOf, s, events[0]);
      CancelsKept(addrOf, s, events[0]);
      RunKeeps(addrOf, Apply(s, events[0]), events[1..]);
    }
  }

  lemma ClashDisagrees(addrOf: PeerID -> Address, s: Reg, e: Event)
    requires Linked(addrOf, s) && Enabled(addrOf, s, e) && Clashes(s, e)
    ensures !Agree(Apply(s, e).maps)
  {
    RegisteredTogether(addrOf, s, e.c, e.id, e.p);
    AddAgreesExactly(s.maps, e.c, e.id, e.p);
    hide Agree, PeerAdded;
  }

  lemma {:induction false} AgreeFrom(addrOf: PeerID -> Address, s: Reg, events: seq<Event>)
    requires CanRun(addrOf, s, events) && Linked(addrOf, s)
    ensures AlwaysAgree(addrOf, s, events) <==> !EverClashes(addrOf, s, events)
    decreases |events|
  {
    if events != [] {
      var s1 := Apply(s, events[0]);
      if Clashes(s, events[0]) {
        ClashDisagrees(addrOf, s, events[0]);
        assert !AlwaysAgree(addrOf, s1, events[1..]);
      } else {
        LinkedKept(addrOf, s, events[0]);
        hide Agree, Enabled, Apply, Clashes;
        AgreeFrom(addrOf, s1, events[1..]);
      }
    }
  }

  /** The four maps agree throughout a run exactly when no peer comes in under an address that
      is registered for another peer ID. */
  lemma AgreeExactly(addrOf: PeerID -> Address, events: seq<Event>)
    requires CanRun(addrOf, Start, events)
    ensures AlwaysAgree(addrOf, Start, events) <==> !EverClashes(addrOf, Start, events)
  {
    AgreeFrom(addrOf, Start, events);
  }

  /** The peer IDs that are added in a run. */
  function Added(events: seq<Event>): set<PeerID> {
    set e | e in events && e.AddPeer? :: e.id
  }

  ghost predicate Injective(addrOf: PeerID -> Address, ids: set<PeerID>) {
    forall a, b :: a in ids && b in ids && addrOf(a) == addrOf(b) ==> a == b
  }

  lemma OverlaysFrom(addrOf: PeerID -> Address, s: Reg, e: Event)
    requires Enabled(addrOf, s, e)
    ensures Apply(s, e).maps.overlays.Keys <= s.maps.overlays.Keys + if e.AddPeer? then {e.id} else {}
  {
  }

  lemma {:induction false} InjectiveFrom(addrOf: PeerID -> Address, ids: set<PeerID>, s: Reg, events: seq<Event>)
    requires CanRun(addrOf, s, events) && Linked(addrOf, s)
    requires Injective(addrOf, ids) && s.maps.overlays.Keys <= ids && Added(events) <= ids
    ensures !EverClashes(addrOf, s, events)
    decreases |events|
  {
    if events != [] {
      var e := events[0];
      assert e in events && forall x :: x in events[1..] ==> x in events;
      assert e.AddPeer? ==> e.id in Added(events);
      assert Added(events[1..]) <= Added(events);
      assert !Clashes(s, e);
      LinkedKept(addrOf, s, e);
      OverlaysFrom(addrOf, s, e);
      hide Agree, Enabled, Apply, Clashes, Injective, Linked, Added;
      InjectiveFrom(addrOf, ids, Apply(s, e), events[1..]);
    }
  }

  /** Which never happens if no two of the peer IDs added share an address. */
  lemma InjectiveNeverClashes(addrOf: PeerID -> Address, events: seq<Event>)
    requires CanRun(addrOf, Start, events) && Injective(addrOf, Added(events))
    ensures !EverClashes(addrOf, Start, events)
  {
    InjectiveFrom(addrOf, Added(events), Start, events);
  }

  /** In every run without a clash the four maps agree, every registered peer has the address of its peer ID,
      and the `addPeer` calls that returned false are the registered peers plus the
      disconnection callbacks made. */
  lemma RegistryConserved(addrOf: PeerID -> Address, events: seq<Event>)
    requires CanRun(addrOf, Start, events) && !EverClashes(addrOf, Start, events)
    ensures var s := Run(addrOf, Start, events);
      && Agree(s.maps)
      && (forall id :: id in s.maps.overlays ==> s.maps.overlays[id].addr == addrOf(id))
      && s.joined == |s.maps.overlays| + |s.notified|
  {
    RunKeeps(addrOf, Start, events);
    hide Cancels, Tracked, Agree;
  }

  /** In every such run a peer is registered exactly as long as a connection of its own is open. */
  lemma RegisteredWhileOpen(addrOf: PeerID -> Address, events: seq<Event>, id: PeerID)
    requires CanRun(addrOf, Start, events) && !EverClashes(addrOf, Start, events)
    ensures var s := Run(addrOf, Start, events);
      id in s.maps.overlays <==> exists c :: (id, c) in s.open
  {
    RunKeeps(addrOf, Start, events);
    OpenExactly(Run(addrOf, Start, events));
    hide Cancels, Tracked, Agree;
  }

  lemma OpenExactly(s: Reg)
    requires Agree(s.maps) && Tracked(s)
    ensures forall id :: id in s.maps.overlays <==> exists c :: (id, c) in s.open
  {
    forall id ensures id in s.maps.overlays <==> exists c :: (id, c) in s.open {
      if id in s.maps.overlays {
        var c :| c in s.maps.connections[id];
        assert c in ConnsOf(s.maps, id);
      }
      if c :| (id, c) in s.open {
        assert c in ConnsOf(s.maps, id);
      }
    }
  }

  /** In every such run a recorded cancel function is in the table until it is invoked, and it is
      invoked at most once. */
  lemma CancelledOnce(addrOf: PeerID -> Address, events: seq<Event>, k: Cancel)
    requires CanRun(addrOf, Start, events) && !EverClashes(addrOf, Start, events)
    requires k in Run(addrOf, Start, events).home
    ensures var s := Run(addrOf, Start, events);
      && (k in s.invoked <==> !InTable(s, k))
      && NoDuplicates(s.invoked)
  {
    RunKeeps(addrOf, Start, events);
  }
}
