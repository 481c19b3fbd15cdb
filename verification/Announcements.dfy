/** Any number of `Connected` calls, interleaved at their lock boundaries with each other,
    with disconnections and with silent additions. */
module Announcements {
  import opened Prelude
  import opened P2P
  import T = Topology

  /** Where a `Connected` call stands. A provider's call goes on to the bidders. */
  datatype Stage =
    | Entered
    | Added
    | Holding(providers: set<Address>)
    | Told(providers: set<Address>)
    | Telling(providers: set<Address>, bidders: set<Address>, left: set<Address>)
    | Finished(providers: set<Address>, reached: Option<set<Address>>)

  /** `live` is history: no disconnection of this peer came after the call stored it. */
  datatype Call = Call(peer: Peer, stage: Stage, live: bool)

  /** One announcement: the call that makes it, the peer it goes to, the provider it is about. */
  datatype Note = Note(call: nat, to: Address, about: Address)

  /** `told` are the announcements made, `faults` those dropped because the address book did
      not know the peer or the broadcast failed. */
  datatype Net = Net(providers: set<Address>, bidders: set<Address>, calls: seq<Call>,
                     told: set<Note>, faults: set<Note>,
                     everProviders: set<Address>)

  datatype Event =
    | Enter(peer: Peer)
    | Add(i: nat)
    | ReadProviders(i: nat)
    | TellNewcomer(i: nat, unknown: set<Address>, sent: bool)
    | ReadBidders(i: nat)
    | SelfUnknown(i: nat)
    | TellBidder(i: nat, b: Address, sent: bool)
    | Finish(i: nat)
    | AddSilently(peer: Peer)
    | Disconnect(peer: Peer)

  const Start: Net := Net({}, {}, [], {}, {}, {})

  predicate Enabled(s: Net, e: Event) {
    match e
    case Enter(_) => true
    case AddSilently(_) => true
    case Disconnect(_) => true
    case Add(i) => i < |s.calls| && s.calls[i].stage.Entered?
    case ReadProviders(i) => i < |s.calls| && s.calls[i].stage.Added?
    case TellNewcomer(i, _, _) => i < |s.calls| && s.calls[i].stage.Holding?
    case ReadBidders(i) => i < |s.calls| && s.calls[i].stage.Told? && s.calls[i].peer.ptype.Provider?
    case SelfUnknown(i) => i < |s.calls| && s.calls[i].stage.Telling? && s.calls[i].stage.left == s.calls[i].stage.bidders
    case TellBidder(i, b, _) => i < |s.calls| && s.calls[i].stage.Telling? && b in s.calls[i].stage.left
    case Finish(i) =>
      i < |s.calls| &&
      ((s.calls[i].stage.Told? && !s.calls[i].peer.ptype.Provider?) ||
       (s.calls[i].stage.Telling? && s.calls[i].stage.left == {}))
  }

  function Move(s: Net, i: nat, stage: Stage): Net
    requires i < |s.calls|
  {
    s.(calls := s.calls[i := s.calls[i].(stage := stage)])
  }

  function Store(s: Net, p: Peer): Net {
    match p.ptype
    case Provider => s.(providers := s.providers + {p.addr}, everProviders := s.everProviders + {p.addr})
    case Bidder => s.(bidders := s.bidders + {p.addr})
    case _ => s
  }

  function Apply(s: Net, e: Event): Net
    requires Enabled(s, e)
  {
    match e
    case Enter(p) => s.(calls := s.calls + [Call(p, Entered, true)])
    case AddSilently(p) => Store(s, p)
    case Add(i) => Move(Store(s, s.calls[i].peer), i, Added)
    case ReadProviders(i) => Move(s, i, Holding(s.providers))
    case TellNewcomer(i, unknown, sent) =>
      var p := s.calls[i].peer.addr;
      var qs := s.calls[i].stage.providers;
      var ok := set q | q in qs && q != p && q !in unknown && sent :: Note(i, p, q);
      var lost := set q | q in qs && q != p && !(q !in unknown && sent) :: Note(i, p, q);
      Move(s, i, Told(qs)).(told := s.told + ok, faults := s.faults + lost)
    case ReadBidders(i) => Move(s, i, Telling(s.calls[i].stage.providers, s.bidders, s.bidders))
    case SelfUnknown(i) =>
      var lost := set b | b in s.calls[i].stage.bidders :: Note(i, b, s.calls[i].peer.addr);
      Move(s, i, Finished(s.calls[i].stage.providers, Some(s.calls[i].stage.bidders))).(faults := s.faults + lost)
    case TellBidder(i, b, sent) =>
      var stage := s.calls[i].stage;
      var s1 := Move(s, i, stage.(left := stage.left - {b}));
      if sent then s1.(told := s.told + {Note(i, b, s.calls[i].peer.addr)})
      else s1.(faults := s.faults + {Note(i, b, s.calls[i].peer.addr)})
    case Finish(i) =>
      var stage := s.calls[i].stage;
      Move(s, i, Finished(stage.providers, if stage.Telling? then Some(stage.bidders) else None))
    case Disconnect(p) =>
      var s1 := match p.ptype
        case Provider => s.(providers := s.providers - {p.addr})
        case Bidder => s.(bidders := s.bidders - {p.addr})
        case _ => s;
      s1.(calls := seq(|s.calls|, i requires 0 <= i < |s.calls| =>
            if s.calls[i].peer == p && !s.calls[i].stage.Entered? then s.calls[i].(live := false) else s.calls[i]))
  }

  predicate CanRun(s: Net, events: seq<Event>)
    decreases |events|
  {
    events == [] || (Enabled(s, events[0]) && CanRun(Apply(s, events[0]), events[1..]))
  }

  function Run(s: Net, events: seq<Event>): Net
    requires CanRun(s, events)
    decreases |events|
  {
    if events == [] then s else Run(Apply(s, events[0]), events[1..])
  }

  // ---------------------------------------------------------------- the tables

  /** Adding and removing a peer change the tables as `Topology.Add` and
      `Topology.Disconnected` do, and these steps are always possible. */
  lemma TablesFollow(s: Net, p: Peer, providers: map<Address, Peer>, bidders: map<Address, Peer>)
    requires s.providers == providers.Keys && s.bidders == bidders.Keys
    ensures Enabled(s, AddSilently(p)) && Enabled(s, Disconnect(p)) && Enabled(s, Enter(p))
    ensures var t := Apply(s, AddSilently(p));
      && t.providers == (if p.ptype.Provider? then providers[p.addr := p] else providers).Keys
      && t.bidders == (if p.ptype.Bidder? then bidders[p.addr := p] else bidders).Keys
      && t.told == s.told && t.calls == s.calls
    ensures var t := Apply(s, Disconnect(p));
      && t.providers == (if p.ptype.Provider? then providers - {p.addr} else providers).Keys
      && t.bidders == (if p.ptype.Bidder? then bidders - {p.addr} else bidders).Keys
      && t.told == s.told
  {
  }

  // ---------------------------------------------------------------- a call on its own

  lemma {:induction false} RunConcat(s: Net, a: seq<Event>, b: seq<Event>)
    requires CanRun(s, a) && CanRun(Run(s, a), b)
    ensures CanRun(s, a + b) && Run(s, a + b) == Run(Run(s, a), b)
    decreases |a|
  {
    if a == [] {
      assert a + b == b;
    } else {
      assert (a + b)[1..] == a[1..] + b;
      RunConcat(Apply(s, a[0]), a[1..], b);
    }
  }

  function Tells(i: nat, order: seq<Address>): seq<Event> {
    if order == [] then [] else [TellBidder(i, order[0], true)] + Tells(i, order[1..])
  }

  lemma {:induction false} TellsRun(s: Net, i: nat, order: seq<Address>)
    requires i < |s.calls| && s.calls[i].stage.Telling? && NoDuplicates(order)
    requires s.calls[i].stage.left == Elements(order)
    ensures CanRun(s, Tells(i, order))
    ensures Run(s, Tells(i, order)) ==
      Move(s, i, s.calls[i].stage.(left := {})).(told := s.told + set b | b in order :: Note(i, b, s.calls[i].peer.addr))
    decreases |order|
  {
    if order == [] {
      assert s.calls[i].stage.left == {};
      assert s.calls[i := s.calls[i]] == s.calls;
      var p := s.calls[i].peer.addr;
      assert (set b | b in order :: Note(i, b, p)) == {};
    } else {
      var e := TellBidder(i, order[0], true);
      assert order[0] in Elements(order);
      var s1 := Apply(s, e);
      assert order[0] !in order[1..];
      assert order == [order[0]] + order[1..];
      assert Elements(order) - {order[0]} == Elements(order[1..]);
      TellsRun(s1, i, order[1..]);
      assert Tells(i, order)[1..] == Tells(i, order[1..]);
    }
  }

  /** The steps of a call that nothing interleaves with. */
  function Alone(i: nat, p: Peer, unknown: set<Address>, order: seq<Address>): seq<Event> {
    [Enter(p), Add(i), ReadProviders(i), TellNewcomer(i, unknown, true)] + AloneEnd(i, p, unknown, order)
  }

  function AloneEnd(i: nat, p: Peer, unknown: set<Address>, order: seq<Address>): seq<Event> {
    if !p.ptype.Provider? then [Finish(i)]
    else if p.addr in unknown then [ReadBidders(i), SelfUnknown(i)]
    else [ReadBidders(i)] + Tells(i, order) + [Finish(i)]
  }

  /** The announcements of call `i`, from who was told about whom. */
  function Notes(i: nat, told: set<(Peer, T.PeerInfo)>): set<Note> {
    set x | x in told :: Note(i, x.0.addr, x.1.addr)
  }

  /** What the newcomer is told, and what the bidders are, when broadcasts succeed. */
  function NewcomerNotes(i: nat, p: Peer, providers: set<Address>, unknown: set<Address>): set<Note> {
    set q | q in providers && q != p.addr && q !in unknown :: Note(i, p.addr, q)
  }

  function BidderNotes(i: nat, p: Peer, bidders: set<Address>, unknown: set<Address>): set<Note> {
    if p.ptype.Provider? && p.addr !in unknown then set b | b in bidders :: Note(i, b, p.addr) else {}
  }

  lemma AloneBegins(s: Net, p: Peer, unknown: set<Address>)
    ensures var i := |s.calls|; var start := [Enter(p), Add(i), ReadProviders(i), TellNewcomer(i, unknown, true)];
      && CanRun(s, start)
      && var t := Run(s, start);
         && |t.calls| == i + 1 && t.calls[i] == Call(p, Told(Store(s, p).providers), true)
         && t.providers == Store(s, p).providers && t.bidders == Store(s, p).bidders
         && t.told == s.told + NewcomerNotes(i, p, t.providers, unknown)
  {
    var i := |s.calls|;
    var e0, e1, e2, e3 := Enter(p), Add(i), ReadProviders(i), TellNewcomer(i, unknown, true);
    var s1 := Apply(s, e0);
    var s2 := Apply(s1, e1);
    var s3 := Apply(s2, e2);
    var s4 := Apply(s3, e3);
    assert [e0, e1, e2, e3][1..] == [e1, e2, e3] && [e1, e2, e3][1..] == [e2, e3] && [e2, e3][1..] == [e3] && [e3][1..] == [];
    assert CanRun(s4, []) && CanRun(s3, [e3]) && CanRun(s2, [e2, e3]) && CanRun(s1, [e1, e2, e3]);
    assert Run(s4, []) == s4 && Run(s3, [e3]) == s4 && Run(s2, [e2, e3]) == s4 && Run(s1, [e1, e2, e3]) == s4;
  }

  lemma AloneEnds(s: Net, i: nat, p: Peer, unknown: set<Address>, order: seq<Address>)
    requires i < |s.calls| && s.calls[i].stage.Told? && s.calls[i].peer == p
    requires NoDuplicates(order) && Elements(order) == s.bidders
    ensures CanRun(s, AloneEnd(i, p, unknown, order))
    ensures var t := Run(s, AloneEnd(i, p, unknown, order));
      && i < |t.calls| && t.calls[i].stage.Finished?
      && t.providers == s.providers && t.bidders == s.bidders
      && t.told == s.told + BidderNotes(i, p, s.bidders, unknown)
  {
    var e, f := ReadBidders(i), Finish(i);
    if !p.ptype.Provider? {
      RunOne(s, f);
    } else {
      var s1 := Apply(s, e);
      RunOne(s, e);
      if p.addr in unknown {
        RunOne(s1, SelfUnknown(i));
        RunConcat(s, [e], [SelfUnknown(i)]);
        assert AloneEnd(i, p, unknown, order) == [e] + [SelfUnknown(i)];
      } else {
        TellsRun(s1, i, order);
        assert (set b | b in order :: Note(i, b, p.addr)) == set b | b in s.bidders :: Note(i, b, p.addr);
        RunConcat(s, [e], Tells(i, order));
        RunOne(Run(s1, Tells(i, order)), f);
        RunConcat(s, [e] + Tells(i, order), [f]);
      }
    }
  }

  lemma RunOne(s: Net, e: Event)
    requires Enabled(s, e)
    ensures CanRun(s, [e]) && Run(s, [e]) == Apply(s, e)
  {
    assert [e][1..] == [];
    assert CanRun(Apply(s, e), []) && Run(Apply(s, e), []) == Apply(s, e);
  }

  /** A call that nothing interleaves with leaves the tables and makes the announcements that
      `Topology.Connected` ensures. */
  lemma ConnectedAlone(s: Net, p: Peer, providers: map<Address, Peer>, bidders: map<Address, Peer>,
                       book: Peer -> Option<nat>, order: seq<Address>)
    requires forall a :: a in providers ==> providers[a] == Peer(a, Provider)
    requires forall a :: a in bidders ==> bidders[a] == Peer(a, Bidder)
    requires providers.Keys == Store(s, p).providers && bidders.Keys == Store(s, p).bidders
    requires NoDuplicates(order) && Elements(order) == bidders.Keys
    ensures var i := |s.calls|; var events := Alone(i, p, Unknown(p, providers, book), order);
      && CanRun(s, events)
      && var t := Run(s, events);
         && t.providers == providers.Keys && t.bidders == bidders.Keys
         && t.told == s.told + Notes(i, T.ToldToNewcomer(p, providers, book)) + Notes(i, T.ToldToBidders(p, bidders, book))
  {
    var unknown := Unknown(p, providers, book);
    var i := |s.calls|;
    var start := [Enter(p), Add(i), ReadProviders(i), TellNewcomer(i, unknown, true)];
    AloneBegins(s, p, unknown);
    AloneEnds(Run(s, start), i, p, unknown, order);
    RunConcat(s, start, AloneEnd(i, p, unknown, order));
    NewcomerTold(i, p, providers, book);
    BiddersTold(i, p, providers, bidders, book);
    hide Run, CanRun, T.ToldToNewcomer, T.ToldToBidders, Notes, Apply, Enabled, NewcomerNotes, BidderNotes, Unknown;
  }

  /** The address book's gaps: providers it does not know, and the newcomer if it is one. */
  function Unknown(p: Peer, providers: map<Address, Peer>, book: Peer -> Option<nat>): set<Address> {
    (set a | a in providers && book(providers[a]).None?) +
    if p.ptype.Provider? && book(p).None? then {p.addr} else {}
  }

  lemma NewcomerTold(i: nat, p: Peer, providers: map<Address, Peer>, book: Peer -> Option<nat>)
    requires forall a :: a in providers ==> providers[a] == Peer(a, Provider)
    ensures Notes(i, T.ToldToNewcomer(p, providers, book)) ==
            NewcomerNotes(i, p, providers.Keys, Unknown(p, providers, book))
  {
    var notes := NewcomerNotes(i, p, providers.Keys, Unknown(p, providers, book));
    var told := T.ToldToNewcomer(p, providers, book);
    forall x | x in notes ensures x in Notes(i, told) {
      var q := providers[x.about];
      assert q in T.Values(providers);
      assert (p, T.PeerInfo(q.addr, book(q).value)) in told;
    }
  }

  lemma BiddersTold(i: nat, p: Peer, providers: map<Address, Peer>, bidders: map<Address, Peer>, book: Peer -> Option<nat>)
    requires p.addr in providers ==> providers[p.addr] == Peer(p.addr, Provider)
    requires forall a :: a in bidders ==> bidders[a] == Peer(a, Bidder)
    ensures Notes(i, T.ToldToBidders(p, bidders, book)) ==
            BidderNotes(i, p, bidders.Keys, Unknown(p, providers, book))
  {
    if p.ptype.Provider? && book(p).Some? {
      var told := T.ToldToBidders(p, bidders, book);
      forall b | b in bidders.Keys ensures Note(i, b, p.addr) in Notes(i, told) {
        assert bidders[b] in T.Values(bidders);
        assert (bidders[b], T.PeerInfo(p.addr, book(p).value)) in told;
      }
    }
  }

  // ---------------------------------------------------------------- the invariant

  predicate Stored(c: Call) {
    c.live && !c.stage.Entered?
  }

  /** The providers a call has read, if it has. */
  function ReadSet(c: Call): Option<set<Address>> {
    if c.stage.Entered? || c.stage.Added? then None else Some(c.stage.providers)
  }

  /** The bidders a provider's call has read, if it has. */
  function BidderSet(c: Call): Option<set<Address>> {
    match c.stage
    case Telling(_, bs, _) => Some(bs)
    case Finished(_, bs) => bs
    case _ => None
  }

  /** Each side stores before it reads: when both have stored and both have read, one saw
      the other. */
  predicate OneSees(ci: Call, cj: Call) {
    || ReadSet(ci).None? || cj.peer.addr in ReadSet(ci).value
    || BidderSet(cj).None? || ci.peer.addr in BidderSet(cj).value
  }

  ghost predicate InTable(s: Net) {
    forall i :: 0 <= i < |s.calls| && Stored(s.calls[i]) ==>
      && (s.calls[i].peer.ptype.Provider? ==> s.calls[i].peer.addr in s.providers)
      && (s.calls[i].peer.ptype.Bidder? ==> s.calls[i].peer.addr in s.bidders)
  }

  ghost predicate PairsSee(s: Net) {
    forall i, j ::
      && 0 <= i < |s.calls| && 0 <= j < |s.calls|
      && Stored(s.calls[i]) && s.calls[i].peer.ptype.Bidder?
      && Stored(s.calls[j]) && s.calls[j].peer.ptype.Provider?
      ==> OneSees(s.calls[i], s.calls[j])
  }

  /** What a call has read, it has itself announced as far as it got, or recorded as a fault. */
  ghost predicate Announced(s: Net, i: nat)
    requires i < |s.calls|
  {
    var c := s.calls[i];
    var p := c.peer.addr;
    && (c.stage.Told? || c.stage.Telling? || c.stage.Finished? ==>
          forall q :: q in c.stage.providers && q != p ==> Note(i, p, q) in s.told + s.faults)
    && (c.stage.Telling? ==> c.stage.left <= c.stage.bidders)
    && (c.stage.Telling? ==>
          forall b :: b in c.stage.bidders && b !in c.stage.left ==> Note(i, b, p) in s.told + s.faults)
    && (c.stage.Finished? && c.stage.reached.Some? ==>
          forall b :: b in c.stage.reached.value ==> Note(i, b, p) in s.told + s.faults)
    && (c.stage.Finished? && c.peer.ptype.Provider? ==> c.stage.reached.Some?)
    && (BidderSet(c).Some? ==> c.peer.ptype.Provider?)
  }

  /** Nobody is told about a peer that never was a provider. */
  ghost predicate Sound(s: Net) {
    && s.providers <= s.everProviders
    && (forall x :: x in s.told ==> x.about in s.everProviders)
    && (forall i :: 0 <= i < |s.calls| ==>
          && (ReadSet(s.calls[i]).Some? ==> ReadSet(s.calls[i]).value <= s.everProviders)
          && (s.calls[i].peer.ptype.Provider? && !s.calls[i].stage.Entered? ==> s.calls[i].peer.addr in s.everProviders))
  }

  ghost predicate Inv(s: Net) {
    && InTable(s)
    && PairsSee(s)
    && Sound(s)
    && forall i :: 0 <= i < |s.calls| ==> Announced(s, i)
  }

  lemma TableKept(s: Net, e: Event)
    requires Enabled(s, e) && InTable(s)
    ensures InTable(Apply(s, e))
  {
  }

  lemma PairsKept(s: Net, e: Event)
    requires Enabled(s, e) && InTable(s) && PairsSee(s)
    ensures PairsSee(Apply(s, e))
  {
  }

  lemma SoundKept(s: Net, e: Event)
    requires Enabled(s, e) && Sound(s)
    requires forall i :: 0 <= i < |s.calls| ==> Announced(s, i)
    ensures Sound(Apply(s, e))
  {
    if e.TellBidder? {
      assert Announced(s, e.i);
    }
  }

  lemma AnnouncedKept(s: Net, e: Event)
    requires Enabled(s, e)
    requires forall i :: 0 <= i < |s.calls| ==> Announced(s, i)
    ensures forall i :: 0 <= i < |Apply(s, e).calls| ==> Announced(Apply(s, e), i)
  {
    forall i | 0 <= i < |Apply(s, e).calls| ensures Announced(Apply(s, e), i) {
      if i < |s.calls| {
        assert Announced(s, i);
      }
    }
  }

  lemma {:induction false} RunKeeps(s: Net, events: seq<Event>)
    requires CanRun(s, events) && Inv(s)
    ensures Inv(Run(s, events))
    decreases |events|
  {
    if events != [] {
      TableKept(s, events[0]);
      PairsKept(s, events[0]);
      SoundKept(s, events[0]);
      AnnouncedKept(s, events[0]);
      RunKeeps(Apply(s, events[0]), events[1..]);
    }
  }

  /** The calls for a bidder and a provider have both finished, and neither has since
      disconnected. */
  predicate BothFinished(s: Net, i: nat, j: nat) {
    && i < |s.calls| && j < |s.calls|
    && s.calls[i].peer.ptype.Bidder? && s.calls[i].stage.Finished? && s.calls[i].live
    && s.calls[j].peer.ptype.Provider? && s.calls[j].stage.Finished? && s.calls[j].live
    && s.calls[i].peer.addr != s.calls[j].peer.addr
  }

  /** The announcement of the one to the other, as made by call `k`. */
  function NoteBy(s: Net, k: nat, i: nat, j: nat): Note
    requires i < |s.calls| && j < |s.calls|
  {
    Note(k, s.calls[i].peer.addr, s.calls[j].peer.addr)
  }

  /** Then one of these two calls has told the bidder about the provider, or attempted to. */
  lemma BidderLearnsProvider(events: seq<Event>, i: nat, j: nat)
    requires CanRun(Start, events) && BothFinished(Run(Start, events), i, j)
    ensures var s := Run(Start, events);
      NoteBy(s, i, i, j) in s.told + s.faults || NoteBy(s, j, i, j) in s.told + s.faults
  {
    RunKeeps(Start, events);
    var s := Run(Start, events);
    assert OneSees(s.calls[i], s.calls[j]);
    assert Announced(s, i) && Announced(s, j);
  }

  /** A pair is told only about an address that was a provider at some time. */
  lemma ToldAboutProviders(events: seq<Event>, x: Note)
    requires CanRun(Start, events) && x in Run(Start, events).told
    ensures x.about in Run(Start, events).everProviders
  {
    RunKeeps(Start, events);
  }

  /** The step that makes an announcement: the lookup and the broadcast succeed. */
  predicate Makes(e: Event, x: Note) {
    match e
    case TellNewcomer(k, unknown, sent) => k == x.call && sent && x.about !in unknown
    case TellBidder(k, b, sent) => k == x.call && b == x.to && sent
    case _ => false
  }

  /** The step that drops one: the lookup or the broadcast fails. */
  predicate Drops(e: Event, x: Note) {
    match e
    case TellNewcomer(k, unknown, sent) => k == x.call && (!sent || x.about in unknown)
    case SelfUnknown(k) => k == x.call
    case TellBidder(k, b, sent) => k == x.call && b == x.to && !sent
    case _ => false
  }

  lemma NoteStep(s: Net, e: Event, x: Note)
    requires Enabled(s, e)
    ensures x in Apply(s, e).told ==> x in s.told || Makes(e, x)
    ensures x in Apply(s, e).faults ==> x in s.faults || Drops(e, x)
  {
  }

  lemma {:induction false} NotesFrom(s: Net, events: seq<Event>, x: Note)
    requires CanRun(s, events)
    ensures x in Run(s, events).told ==> x in s.told || exists e :: e in events && Makes(e, x)
    ensures x in Run(s, events).faults ==> x in s.faults || exists e :: e in events && Drops(e, x)
    decreases |events|
  {
    if events != [] {
      NoteStep(s, events[0], x);
      assert events[0] in events && forall e :: e in events[1..] ==> e in events;
      hide Apply, Enabled, Makes, Drops;
      NotesFrom(Apply(s, events[0]), events[1..], x);
    }
  }

  /** Whoever counts as told was sent a broadcast that went through, and what counts as a fault
      is a lookup or a broadcast that failed. */
  lemma ToldWasSent(events: seq<Event>, x: Note)
    requires CanRun(Start, events)
    ensures x in Run(Start, events).told ==> exists e :: e in events && Makes(e, x)
    ensures x in Run(Start, events).faults ==> exists e :: e in events && Drops(e, x)
  {
    NotesFrom(Start, events, x);
  }

  /** Of call `i`, for the bidder, and call `j`, for the provider, no step fails that concerns
      the other one: the address book knows the provider, and the broadcasts go through. */
  predicate Succeeds(e: Event, i: nat, j: nat, bidder: Address, provider: Address) {
    match e
    case TellNewcomer(k, unknown, sent) => k == i ==> provider !in unknown && sent
    case SelfUnknown(k) => k != j
    case TellBidder(k, b, sent) => k == j && b == bidder ==> sent
    case _ => true
  }

  lemma {:induction false} CallsGrow(s: Net, events: seq<Event>)
    requires CanRun(s, events)
    ensures |s.calls| <= |Run(s, events).calls|
    ensures forall k :: 0 <= k < |s.calls| ==> Run(s, events).calls[k].peer == s.calls[k].peer
    decreases |events|
  {
    if events != [] {
      var s1 := Apply(s, events[0]);
      assert |s.calls| <= |s1.calls| && forall k :: 0 <= k < |s.calls| ==> s1.calls[k].peer == s.calls[k].peer;
      hide Apply, Enabled;
      CallsGrow(s1, events[1..]);
    }
  }

  lemma FaultStep(s: Net, e: Event, i: nat, j: nat, bidder: Peer, provider: Peer, k: nat)
    requires Enabled(s, e) && Succeeds(e, i, j, bidder.addr, provider.addr)
    requires i < |s.calls| ==> s.calls[i].peer == bidder
    requires j < |s.calls| ==> s.calls[j].peer == provider
    requires bidder.addr != provider.addr && (k == i || k == j)
    requires Note(k, bidder.addr, provider.addr) !in s.faults
    ensures Note(k, bidder.addr, provider.addr) !in Apply(s, e).faults
  {
  }

  lemma {:induction false} NoFault(s: Net, events: seq<Event>, i: nat, j: nat, k: nat)
    requires CanRun(s, events) && BothFinished(Run(s, events), i, j) && (k == i || k == j)
    requires var t := Run(s, events);
      && (forall e :: e in events ==> Succeeds(e, i, j, t.calls[i].peer.addr, t.calls[j].peer.addr))
      && NoteBy(t, k, i, j) !in s.faults
    ensures NoteBy(Run(s, events), k, i, j) !in Run(s, events).faults
    decreases |events|
  {
    if events != [] {
      var t := Run(s, events);
      assert events[0] in events;
      CallsGrow(s, events);
      hide Apply, Enabled, Succeeds;
      FaultStep(s, events[0], i, j, t.calls[i].peer, t.calls[j].peer, k);
      assert forall e :: e in events[1..] ==> e in events;
      NoFault(Apply(s, events[0]), events[1..], i, j, k);
    }
  }

  /** If in these two calls the lookups of the provider and the broadcasts to the bidder
      succeed, one of them has told the bidder, whatever fails elsewhere. */
  lemma BidderIsTold(events: seq<Event>, i: nat, j: nat)
    requires CanRun(Start, events) && BothFinished(Run(Start, events), i, j)
    requires var s := Run(Start, events);
      forall e :: e in events ==> Succeeds(e, i, j, s.calls[i].peer.addr, s.calls[j].peer.addr)
    ensures var s := Run(Start, events);
      NoteBy(s, i, i, j) in s.told || NoteBy(s, j, i, j) in s.told
  {
    BidderLearnsProvider(events, i, j);
    NoFault(Start, events, i, j, i);
    NoFault(Start, events, i, j, j);
  }
}
