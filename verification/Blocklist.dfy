/** The blocklist: peers blocked for a while or for good, pruned only when asked about. */
module Blocklist {
  import opened Prelude
  import opened P2P
  import opened PeerRegistry

  /** Times and durations on one clock; a zero duration blocks for good. */
  datatype BlockInfo = BlockInfo(reason: string, start: int, duration: int)

  datatype BlockedPeerInfo = BlockedPeerInfo(peer: Address, reason: string, remaining: Option<int>)

  type BlockMap = map<PeerID, BlockInfo>

  /** Past its end, strictly, and not permanent. */
  predicate Expired(info: BlockInfo, now: int) {
    now > info.start + info.duration && info.duration != 0
  }

  predicate Listable(info: BlockInfo, now: int) {
    now < info.start + info.duration || info.duration == 0
  }

  function Asked(m: BlockMap, peer: PeerID, now: int): (BlockMap, bool) {
    if peer !in m then (m, false)
    else if Expired(m[peer], now) then (m - {peer}, false)
    else (m, true)
  }

  /** `b` is the entry of peer `id`, made between `since` and `until`: the time it has left is
      what was left of its block at some time in between. */
  predicate Reports(b: BlockedPeerInfo, id: PeerID, m: BlockMap, since: int, until: int, addrOf: PeerID -> Option<Address>)
    requires id in m
  {
    && Listable(m[id], since)
    && addrOf(id) == Some(b.peer) && b.reason == m[id].reason
    && match b.remaining
       case None => m[id].duration == 0
       case Some(left) =>
         m[id].duration != 0 && since <= m[id].start + m[id].duration - left <= until
  }

  class Blocks {
    var blockMap: BlockMap

    constructor ()
      ensures blockMap == map[]
    {
      blockMap := map[];
    }

    method BlockPeer(peer: PeerID, duration: int, reason: string, now: int)
      modifies this
      ensures blockMap == old(blockMap)[peer := BlockInfo(reason, now, duration)]
    {
      blockMap := blockMap[peer := BlockInfo(reason, now, duration)];
    }

    method IsBlocked(peer: PeerID, now: int) returns (blocked: bool)
      modifies this
      ensures (blockMap, blocked) == Asked(old(blockMap), peer, now)
      ensures peer !in old(blockMap) ==> !blocked
      ensures peer in old(blockMap) ==>
                var info := old(blockMap)[peer];
                blocked == (info.duration == 0 || now <= info.start + info.duration)
      ensures blockMap == if blocked then old(blockMap) else old(blockMap) - {peer}
    {
      if peer !in blockMap {
        return false;
      }
      var info := blockMap[peer];
      if now > info.start + info.duration && info.duration != 0 {
        blockMap := blockMap - {peer};
        return false;
      }
      return true;
    }

    /** The clock is read twice for every entry, for the test and for the time left. What is
        listed was listable when the call began, and what still is when it ends is listed.
        Peers whose address cannot be derived are left out. */
    method BlockedPeers(clock: nat -> int, addrOf: PeerID -> Option<Address>) returns (res: seq<BlockedPeerInfo>)
      requires forall i, j :: 0 <= i <= j ==> clock(i) <= clock(j)
      ensures forall b :: b in res ==> exists id :: id in blockMap && Reports(b, id, blockMap, clock(0), clock(2 * |blockMap|), addrOf)
      ensures forall id :: id in blockMap && Listable(blockMap[id], clock(2 * |blockMap|)) && addrOf(id).Some? ==>
                exists b :: b in res && Reports(b, id, blockMap, clock(0), clock(2 * |blockMap|), addrOf)
      ensures |res| <= |blockMap|
    {
      res := [];
      var ids := Range(blockMap);
      ListingLength(ids, blockMap.Keys);
      for i := 0 to |ids|
        invariant |res| <= i
        invariant forall b :: b in res ==> exists id :: id in blockMap && Reports(b, id, blockMap, clock(0), clock(2 * |blockMap|), addrOf)
        invariant forall j :: 0 <= j < i && Listable(blockMap[ids[j]], clock(2 * |blockMap|)) && addrOf(ids[j]).Some? ==>
                    exists b :: b in res && Reports(b, ids[j], blockMap, clock(0), clock(2 * |blockMap|), addrOf)
      {
        var info := blockMap[ids[i]];
        var addr := addrOf(ids[i]);
        if Listable(info, clock(2 * i)) && addr.Some? {
          var b := BlockedPeerInfo(addr.value, info.reason,
                                   if info.duration == 0 then None else Some(info.start + info.duration - clock(2 * i + 1)));
          assert Reports(b, ids[i], blockMap, clock(0), clock(2 * |blockMap|), addrOf);
          res := res + [b];
          assert b in res;
        }
      }
      forall id | id in blockMap && Listable(blockMap[id], clock(2 * |blockMap|)) && addrOf(id).Some?
        ensures exists b :: b in res && Reports(b, id, blockMap, clock(0), clock(2 * |blockMap|), addrOf)
      {
        var j :| 0 <= j < |ids| && ids[j] == id;
        var b :| b in res && Reports(b, ids[j], blockMap, clock(0), clock(2 * |blockMap|), addrOf);
      }
    }
  }

  // ---------------------------------------------------------------- whole runs

  datatype Event =
    | Block(peer: PeerID, duration: int, reason: string, at: int)
    | Ask(peer: PeerID, at: int)

  function Apply(m: BlockMap, e: Event): BlockMap {
    match e
    case Block(peer, duration, reason, at) => m[peer := BlockInfo(reason, at, duration)]
    case Ask(peer, at) => Asked(m, peer, at).0
  }

  function Run(events: seq<Event>): BlockMap {
    if events == [] then map[] else Apply(Run(events[..|events| - 1]), events[|events| - 1])
  }

  /** The clock does not run backwards. */
  predicate Clocked(events: seq<Event>, now: int) {
    events == [] ||
    (events[|events| - 1].at <= now && Clocked(events[..|events| - 1], events[|events| - 1].at))
  }

  /** The latest block of a peer in the event log. */
  function LastBlock(events: seq<Event>, peer: PeerID): Option<BlockInfo> {
    if events == [] then None
    else
      var e := events[|events| - 1];
      if e.Block? && e.peer == peer then Some(BlockInfo(e.reason, e.at, e.duration))
      else LastBlock(events[..|events| - 1], peer)
  }

  /** Whether the log blocks a peer: its latest block is permanent or not past its end. */
  predicate BlockedByLog(events: seq<Event>, peer: PeerID, now: int) {
    var last := LastBlock(events, peer);
    last.Some? && (last.value.duration == 0 || now <= last.value.start + last.value.duration)
  }

  /** Pruning forgets only blocks that are over. */
  lemma {:induction false} MapFollowsLog(events: seq<Event>, now: int, peer: PeerID)
    requires Clocked(events, now)
    ensures peer in Run(events) ==> LastBlock(events, peer) == Some(Run(events)[peer])
    ensures peer !in Run(events) ==>
              LastBlock(events, peer).None? || Expired(LastBlock(events, peer).value, now)
  {
    if events != [] {
      MapFollowsLog(events[..|events| - 1], events[|events| - 1].at, peer);
    }
  }

  /** The pruned map answers like the log, whatever was blocked and asked before. */
  lemma AnswersMatchLog(events: seq<Event>, peer: PeerID, now: int)
    requires Clocked(events, now)
    ensures Asked(Run(events), peer, now).1 <==> BlockedByLog(events, peer, now)
  {
    MapFollowsLog(events, now, peer);
  }

  /** The list of blocked peers agrees with the log but for the instant a block ends. */
  lemma ListingMatchesLog(events: seq<Event>, peer: PeerID, now: int)
    requires Clocked(events, now)
    ensures (peer in Run(events) && Listable(Run(events)[peer], now)) <==>
            BlockedByLog(events, peer, now) &&
            var last := LastBlock(events, peer).value;
            (last.duration == 0 || now != last.start + last.duration)
  {
    MapFollowsLog(events, now, peer);
  }
}
