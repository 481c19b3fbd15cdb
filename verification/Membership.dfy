/** The registry and the topology over whole runs. A peer is registered under the registry's
    mutex and enters the topology later, so its disconnection may come in between. */
module Membership {
  import opened P2P
  import T = Topology

  /** `arriving` are the peers that a completed handshake, or a lookup of a connected peer, is
      about to add to the topology. */
  datatype Net = Net(registered: set<Peer>, stored: set<Peer>, arriving: multiset<Peer>)

  datatype Event =
    | Register(p: Peer)
    | Found(p: Peer)
    | Enter(p: Peer)
    | Leave(p: Peer)

  const Start: Net := Net({}, {}, multiset{})

  /** The topology keeps providers and bidders only. */
  predicate Kept(p: Peer) {
    p.ptype.Provider? || p.ptype.Bidder?
  }

  /** An address is registered once. A connected peer that is found again may present itself
      with another type. */
  ghost predicate Enabled(s: Net, e: Event) {
    match e
    case Register(p) => forall q :: q in s.registered ==> q.addr != p.addr
    case Found(p) => exists q :: q in s.registered && q.addr == p.addr
    case Enter(p) => p in s.arriving
    case Leave(p) => p in s.registered
  }

  /** The registry calls the topology back while it still holds its mutex. */
  function Apply(s: Net, e: Event): Net {
    match e
    case Register(p) => s.(registered := s.registered + {p}, arriving := s.arriving + multiset{p})
    case Found(p) => s.(arriving := s.arriving + multiset{p})
    case Enter(p) =>
      s.(stored := if Kept(p) then s.stored + {p} else s.stored, arriving := s.arriving - multiset{p})
    case Leave(p) => s.(registered := s.registered - {p}, stored := s.stored - {p})
  }

  ghost predicate CanRun(s: Net, events: seq<Event>)
    decreases |events|
  {
    events == [] || (Enabled(s, events[0]) && CanRun(Apply(s, events[0]), events[1..]))
  }

  function Run(s: Net, events: seq<Event>): Net
    decreases |events|
  {
    if events == [] then s else Run(Apply(s, events[0]), events[1..])
  }

  /** A peer enters the topology when it is not registered, or no longer. */
  predicate Late(s: Net, e: Event) {
    e.Enter? && Kept(e.p) && e.p !in s.registered
  }

  predicate EverLate(s: Net, events: seq<Event>)
    decreases |events|
  {
    events != [] && (Late(s, events[0]) || EverLate(Apply(s, events[0]), events[1..]))
  }

  predicate AlwaysRegistered(s: Net, events: seq<Event>)
    decreases |events|
  {
    s.stored <= s.registered && (events == [] || AlwaysRegistered(Apply(s, events[0]), events[1..]))
  }

  lemma LateStep(s: Net, e: Event)
    requires s.stored <= s.registered
    ensures Apply(s, e).stored <= Apply(s, e).registered <==> !Late(s, e)
  {
    if Late(s, e) {
      assert e.p in Apply(s, e).stored;
    }
  }

  lemma {:induction false} RegisteredFrom(s: Net, events: seq<Event>)
    requires s.stored <= s.registered
    ensures AlwaysRegistered(s, events) <==> !EverLate(s, events)
    decreases |events|
  {
    if events != [] {
      LateStep(s, events[0]);
      if !Late(s, events[0]) {
        RegisteredFrom(Apply(s, events[0]), events[1..]);
      }
    }
  }

  /** Throughout a run every peer of the topology is registered, exactly if no peer enters the
      topology after it has left the registry. */
  lemma RegisteredExactly(events: seq<Event>)
    requires CanRun(Start, events)
    ensures AlwaysRegistered(Start, events) <==> !EverLate(Start, events)
  {
    RegisteredFrom(Start, events);
  }

  /** A provider that disconnects between its registration and its announcement stays in the
      topology. */
  lemma LateProviderStays(a: Address)
    ensures var p := Peer(a, Provider); var events := [Register(p), Leave(p), Enter(p)];
      && CanRun(Start, events)
      && p in Run(Start, events).stored && p !in Run(Start, events).registered
  {
    var p := Peer(a, Provider);
    var e1, e2, e3 := Register(p), Leave(p), Enter(p);
    var s1 := Apply(Start, e1);
    var s2 := Apply(s1, e2);
    var s3 := Apply(s2, e3);
    assert [e1, e2, e3][1..] == [e2, e3] && [e2, e3][1..] == [e3] && [e3][1..] == [];
    assert CanRun(s3, []) && CanRun(s2, [e3]) && CanRun(s1, [e2, e3]);
    assert Run(s3, []) == s3 && Run(s2, [e3]) == s3 && Run(s1, [e2, e3]) == s3;
  }

  /** A connected bidder that presents itself as a provider when it is found again enters the
      topology as one, though the registry knows it as a bidder. */
  lemma OtherTypeEnters(a: Address)
    ensures var p, q := Peer(a, Bidder), Peer(a, Provider); var events := [Register(p), Found(q), Enter(q)];
      && CanRun(Start, events)
      && q in Run(Start, events).stored && Run(Start, events).registered == {p}
  {
    var p, q := Peer(a, Bidder), Peer(a, Provider);
    var e1, e2, e3 := Register(p), Found(q), Enter(q);
    var s1 := Apply(Start, e1);
    var s2 := Apply(s1, e2);
    var s3 := Apply(s2, e3);
    assert p in s1.registered;
    assert [e1, e2, e3][1..] == [e2, e3] && [e2, e3][1..] == [e3] && [e3][1..] == [];
    assert CanRun(s3, []) && CanRun(s2, [e3]) && CanRun(s1, [e2, e3]);
    assert Run(s3, []) == s3 && Run(s2, [e3]) == s3 && Run(s1, [e2, e3]) == s3;
  }

  /** A stored peer goes only with a disconnection of its own: one that was late stays until it
      has come back and left again. */
  lemma {:induction false} StoredUntilItLeaves(s: Net, events: seq<Event>, p: Peer)
    requires p in s.stored && Leave(p) !in events
    ensures p in Run(s, events).stored
    decreases |events|
  {
    if events != [] {
      assert events[0] in events;
      assert Leave(p) !in events[1..];
      StoredUntilItLeaves(Apply(s, events[0]), events[1..], p);
    }
  }

  // ---------------------------------------------------------------- the tables behind it

  /** The peers kept in the topology's two tables. */
  function InTables(providers: map<Address, Peer>, bidders: map<Address, Peer>): set<Peer> {
    T.Values(providers) + T.Values(bidders)
  }

  /** Entering does to the stored peers what `Topology.Add` does to the tables. */
  lemma EnterFollows(s: Net, p: Peer, providers: map<Address, Peer>, bidders: map<Address, Peer>)
    requires T.TablesValid(providers, bidders) && s.stored == InTables(providers, bidders)
    ensures Apply(s, Enter(p)).stored == InTables(if p.ptype.Provider? then providers[p.addr := p] else providers,
                                                  if p.ptype.Bidder? then bidders[p.addr := p] else bidders)
  {
    InTablesExactly(providers, bidders);
    InTablesExactly(if p.ptype.Provider? then providers[p.addr := p] else providers,
                    if p.ptype.Bidder? then bidders[p.addr := p] else bidders);
    hide InTables;
  }

  /** Leaving does to them what `Topology.Disconnected` does. */
  lemma LeaveFollows(s: Net, p: Peer, providers: map<Address, Peer>, bidders: map<Address, Peer>)
    requires T.TablesValid(providers, bidders) && s.stored == InTables(providers, bidders)
    ensures Apply(s, Leave(p)).stored == InTables(if p.ptype.Provider? then providers - {p.addr} else providers,
                                                  if p.ptype.Bidder? then bidders - {p.addr} else bidders)
  {
    InTablesExactly(providers, bidders);
    InTablesExactly(if p.ptype.Provider? then providers - {p.addr} else providers,
                    if p.ptype.Bidder? then bidders - {p.addr} else bidders);
    hide InTables;
  }

  lemma InTablesExactly(providers: map<Address, Peer>, bidders: map<Address, Peer>)
    requires T.TablesValid(providers, bidders)
    ensures forall q :: q in InTables(providers, bidders) <==>
              (q.ptype.Provider? && q.addr in providers) || (q.ptype.Bidder? && q.addr in bidders)
  {
    forall q
      ensures q in InTables(providers, bidders) <==>
              (q.ptype.Provider? && q.addr in providers) || (q.ptype.Bidder? && q.addr in bidders)
    {
      if q.ptype.Provider? && q.addr in providers {
        assert providers[q.addr] in T.Values(providers);
      }
      if q.ptype.Bidder? && q.addr in bidders {
        assert bidders[q.addr] in T.Values(bidders);
      }
    }
  }
}
