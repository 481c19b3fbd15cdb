/** The table of connected providers and bidders, and what is announced when a peer connects. */
module Topology {
  import opened Prelude
  import opened P2P

  datatype PeerInfo = PeerInfo(addr: Address, underlay: nat)

  datatype Broadcast = Broadcast(to: Peer, about: seq<PeerInfo>)

  /** Who has been told about whom. */
  ghost function Told(log: seq<Broadcast>): set<(Peer, PeerInfo)> {
    set m, i | m in log && i in m.about :: (m.to, i)
  }

  lemma ToldAppend(log: seq<Broadcast>, m: Broadcast)
    ensures Told(log + [m]) == Told(log) + set i | i in m.about :: (m.to, i)
  {
    forall x ensures x in Told(log + [m]) <==> x in Told(log) + set i | i in m.about :: (m.to, i) {
      if x in Told(log) {
        var m', i :| m' in log && i in m'.about && x == (m'.to, i);
        assert m' in log + [m];
      }
      if x in Told(log + [m]) && x !in Told(log) {
        var m', i :| m' in log + [m] && i in m'.about && x == (m'.to, i);
        assert m' == m;
      }
      if i :| i in m.about && x == (m.to, i) {
        assert m in log + [m];
      }
    }
  }

  function Values(m: map<Address, Peer>): set<Peer> {
    set a | a in m :: m[a]
  }

  /** What a connecting peer is told: every other provider with a known underlay. */
  ghost function ToldToNewcomer(p: Peer, providers: map<Address, Peer>, book: Peer -> Option<nat>): set<(Peer, PeerInfo)> {
    set q | q in Values(providers) && q.addr != p.addr && book(q).Some? :: (p, PeerInfo(q.addr, book(q).value))
  }

  /** What the bidders are told when `p` is a provider with a known underlay. */
  ghost function ToldToBidders(p: Peer, bidders: map<Address, Peer>, book: Peer -> Option<nat>): set<(Peer, PeerInfo)> {
    if p.ptype.Provider? && book(p).Some?
    then set b | b in Values(bidders) :: (b, PeerInfo(p.addr, book(p).value))
    else {}
  }

  ghost predicate TablesValid(providers: map<Address, Peer>, bidders: map<Address, Peer>) {
    && (forall a :: a in providers ==> providers[a] == Peer(a, Provider))
    && (forall a :: a in bidders ==> bidders[a] == Peer(a, Bidder))
  }

  /** Who is told about whom when `p` connects: `p` about every other provider whose underlay is
      known, and every bidder about `p` if it is a provider with a known underlay. */
  lemma ToldExactly(p: Peer, providers: map<Address, Peer>, bidders: map<Address, Peer>, book: Peer -> Option<nat>,
                    to: Peer, info: PeerInfo)
    requires TablesValid(providers, bidders)
    ensures (to, info) in ToldToNewcomer(p, providers, book) <==>
              && to == p && info.addr in providers && info.addr != p.addr
              && book(Peer(info.addr, Provider)) == Some(info.underlay)
    ensures (to, info) in ToldToBidders(p, bidders, book) <==>
              && p.ptype.Provider? && info.addr == p.addr && book(p) == Some(info.underlay)
              && to.ptype.Bidder? && to.addr in bidders
  {
    if info.addr in providers {
      assert providers[info.addr] in Values(providers);
    }
    if to.addr in bidders {
      assert bidders[to.addr] in Values(bidders);
    }
  }

  class Topology {
    var providers: map<Address, Peer>
    var bidders: map<Address, Peer>
    /** The broadcasts attempted so far. A failed broadcast is only logged, so it counts. */
    var log: seq<Broadcast>
    const announcing: bool

    ghost predicate Valid()
      reads this
    {
      && (forall a :: a in providers ==> providers[a] == Peer(a, Provider))
      && (forall a :: a in bidders ==> bidders[a] == Peer(a, Bidder))
    }

    constructor (announcing: bool)
      ensures Valid() && providers == map[] && bidders == map[] && log == [] && this.announcing == announcing
    {
      providers, bidders, log, this.announcing := map[], map[], [], announcing;
    }

    method Add(p: Peer)
      requires Valid()
      modifies this`providers, this`bidders
      ensures Valid()
      ensures providers == if p.ptype.Provider? then old(providers)[p.addr := p] else old(providers)
      ensures bidders == if p.ptype.Bidder? then old(bidders)[p.addr := p] else old(bidders)
    {
      match p.ptype
      case Provider => providers := providers[p.addr := p];
      case Bidder => bidders := bidders[p.addr := p];
      case _ =>
    }

    method AddPeers(peers: seq<Peer>)
      requires Valid()
      modifies this`providers, this`bidders
      ensures Valid()
      ensures providers.Keys == old(providers.Keys) + set p | p in peers && p.ptype.Provider? :: p.addr
      ensures bidders.Keys == old(bidders.Keys) + set p | p in peers && p.ptype.Bidder? :: p.addr
    {
      for i := 0 to |peers|
        invariant Valid()
        invariant providers.Keys == old(providers.Keys) + set p | p in peers[..i] && p.ptype.Provider? :: p.addr
        invariant bidders.Keys == old(bidders.Keys) + set p | p in peers[..i] && p.ptype.Bidder? :: p.addr
      {
        assert peers[..i + 1] == peers[..i] + [peers[i]];
        Add(peers[i]);
      }
      assert peers[..|peers|] == peers;
    }

    method Disconnected(p: Peer)
      requires Valid()
      modifies this`providers, this`bidders
      ensures Valid()
      ensures providers == if p.ptype.Provider? then old(providers) - {p.addr} else old(providers)
      ensures bidders == if p.ptype.Bidder? then old(bidders) - {p.addr} else old(bidders)
    {
      match p.ptype
      case Provider => providers := providers - {p.addr};
      case Bidder => bidders := bidders - {p.addr};
      case _ =>
    }

    method GetPeers(t: PeerType) returns (peers: seq<Peer>)
      requires Valid()
      ensures forall q :: q in peers <==>
                || (t.Provider? && q.addr in providers && providers[q.addr] == q)
                || (t.Bidder? && q.addr in bidders && bidders[q.addr] == q)
      ensures t.Provider? ==> Elements(peers) == Values(providers) && |peers| == |providers|
      ensures t.Bidder? ==> Elements(peers) == Values(bidders) && |peers| == |bidders|
      ensures !t.Provider? && !t.Bidder? ==> peers == []
    {
      peers := [];
      var m := if t.Provider? then providers else if t.Bidder? then bidders else map[];
      var keys := Range(m);
      for i := 0 to |keys|
        invariant |peers| == i
        invariant forall j :: 0 <= j < i ==> peers[j] == m[keys[j]]
      {
        peers := peers + [m[keys[i]]];
      }
      ListingLength(keys, m.Keys);
      forall x ensures x in peers <==> x in Values(m) {
        if x in Values(m) {
          var a :| a in m && m[a] == x;
          var j :| 0 <= j < |keys| && keys[j] == a;
          assert peers[j] == x;
        }
      }
    }

    method IsConnected(addr: Address) returns (yes: bool)
      ensures yes <==> addr in providers || addr in bidders
    {
      if addr in providers {
        return true;
      }
      if addr in bidders {
        return true;
      }
      return false;
    }

    /** The whole of `Connected` when nothing comes between: afterwards the newcomer has been
        told, in at most one message, about every other known provider, and a new provider has
        been announced to every bidder in a message of its own. */
    method Connected(p: Peer, book: Peer -> Option<nat>)
      requires Valid()
      modifies this
      ensures Valid()
      ensures providers == if p.ptype.Provider? then old(providers)[p.addr := p] else old(providers)
      ensures bidders == if p.ptype.Bidder? then old(bidders)[p.addr := p] else old(bidders)
      ensures !announcing ==> log == old(log)
      ensures announcing ==> Told(log) == old(Told(log)) + ToldToNewcomer(p, providers, book) + ToldToBidders(p, bidders, book)
      ensures announcing ==> |log| == old(|log|) + (if ToldToNewcomer(p, providers, book) == {} then 0 else 1)
                                      + (if p.ptype.Provider? && book(p).Some? then |bidders| else 0)
    {
      Add(p);
      if !announcing {
        return;
      }
      TellNewcomer(p, book);
      if p.ptype.Provider? {
        TellBidders(p, book);
      }
    }

    method TellNewcomer(p: Peer, book: Peer -> Option<nat>)
      requires Valid()
      modifies this`log
      ensures Told(log) == old(Told(log)) + ToldToNewcomer(p, providers, book)
      ensures |log| == old(|log|) + if ToldToNewcomer(p, providers, book) == {} then 0 else 1
    {
      var peers := GetPeers(Provider);
      var underlays: seq<PeerInfo> := [];
      ghost var told: set<(Peer, PeerInfo)> := {};
      for i := 0 to |peers|
        invariant told == set q | q in peers[..i] && q.addr != p.addr && book(q).Some? :: (p, PeerInfo(q.addr, book(q).value))
        invariant told == set x | x in underlays :: (p, x)
      {
        var q := peers[i];
        assert peers[..i + 1] == peers[..i] + [q];
        if q.addr != p.addr && book(q).Some? {
          underlays := underlays + [PeerInfo(q.addr, book(q).value)];
          told := told + {(p, PeerInfo(q.addr, book(q).value))};
        }
      }
      assert peers[..|peers|] == peers;
      assert told == ToldToNewcomer(p, providers, book) by {
        assert forall q :: q in peers <==> q in Values(providers) by {
          assert forall q :: q in peers <==> q in Elements(peers);
        }
      }
      if |underlays| > 0 {
        assert (p, underlays[0]) in told;
        ToldAppend(log, Broadcast(p, underlays));
        log := log + [Broadcast(p, underlays)];
      } else {
        assert told == {};
      }
    }

    method TellBidders(p: Peer, book: Peer -> Option<nat>)
      requires Valid() && p.ptype.Provider?
      modifies this`log
      ensures Told(log) == old(Told(log)) + ToldToBidders(p, bidders, book)
      ensures |log| == old(|log|) + if book(p).Some? then |bidders| else 0
    {
      var peers := GetPeers(Bidder);
      var underlay := book(p);
      if underlay.None? {
        return;
      }
      var info := PeerInfo(p.addr, underlay.value);
      for i := 0 to |peers|
        invariant |log| == old(|log|) + i
        invariant Told(log) == old(Told(log)) + set b | b in peers[..i] :: (b, info)
      {
        assert peers[..i + 1] == peers[..i] + [peers[i]];
        ToldAppend(log, Broadcast(peers[i], [info]));
        assert (set x | x in [info] :: (peers[i], x)) == {(peers[i], info)};
        log := log + [Broadcast(peers[i], [info])];
      }
      assert peers[..|peers|] == peers;
      assert (set b | b in peers :: (b, info)) == ToldToBidders(p, bidders, book) by {
        assert forall b :: b in peers <==> b in Elements(peers);
      }
    }
  }
}
