/** The provider's RPC service: bids handed to the provider, and the callbacks that carry its
    decisions back, keyed by bid digest. */
module ProviderService {
  import opened Prelude
  import opened Channels
  import opened Encoding
  import opened Digests
  import opened Preconf

  type Digest = Bytes

  /** A callback is named by the number of its registration. */
  type CallID = nat

  /** A registered bid and the channel its decision will come on. */
  datatype Waiting = Waiting(digest: Digest, ch: Chan<Status>)

  datatype State = State(table: map<Digest, CallID>, bids: seq<Waiting>)

  datatype Response = Response(digest: Digest, status: Status)

  predicate ValidResponse(r: Response) {
    r.status.Accepted? || r.status.Rejected?
  }

  function Registered(s: State, d: Digest): State {
    State(s.table[d := |s.bids|], s.bids + [Waiting(d, Make(1))])
  }

  /** The callback sends the status and closes the channel. */
  function Called(bids: seq<Waiting>, id: CallID, status: Status): seq<Waiting>
    requires id < |bids|
  {
    bids[id := bids[id].(ch := SentAndClosed(bids[id].ch, status))]
  }

  /** A table entry leads to a channel of its own digest that is still untouched. */
  ghost predicate Valid(s: State) {
    && (forall d :: d in s.table ==>
          s.table[d] < |s.bids| && s.bids[s.table[d]].digest == d && s.bids[s.table[d]].ch.Pristine())
    && (forall id :: 0 <= id < |s.bids| ==> s.bids[id].ch.Pristine() || s.bids[id].ch.Delivered())
  }

  /** One response: the first for a waiting digest is delivered, any other is dropped. */
  function Answered(s: State, r: Response): State
    requires r.digest in s.table ==> s.table[r.digest] < |s.bids|
  {
    if r.digest in s.table
    then State(s.table - {r.digest}, Called(s.bids, s.table[r.digest], r.status))
    else s
  }

  lemma AnsweredValid(s: State, r: Response)
    requires Valid(s)
    ensures Valid(Answered(s, r))
  {
  }

  function AnsweredAll(s: State, rs: seq<Response>): State
    requires Valid(s)
    decreases |rs|
  {
    if rs == [] then s else
      AnsweredValid(s, rs[0]);
      AnsweredAll(Answered(s, rs[0]), rs[1..])
  }

  /** The first response for a digest, if any. */
  function FirstFor(rs: seq<Response>, d: Digest): Option<Status>
    decreases |rs|
  {
    if rs == [] then None
    else if rs[0].digest == d then Some(rs[0].status)
    else FirstFor(rs[1..], d)
  }

  predicate InTable(s: State, id: CallID)
    requires id < |s.bids|
  {
    s.bids[id].digest in s.table && s.table[s.bids[id].digest] == id
  }

  /** A batch of responses gives every waiting bid the first status for its digest, and leaves
      all others as they were. */
  lemma {:induction false} FirstStatusWins(s: State, rs: seq<Response>)
    requires Valid(s)
    ensures Valid(AnsweredAll(s, rs))
    ensures forall d :: d in AnsweredAll(s, rs).table <==> d in s.table && FirstFor(rs, d).None?
    ensures |AnsweredAll(s, rs).bids| == |s.bids|
    ensures forall id :: 0 <= id < |s.bids| ==>
              AnsweredAll(s, rs).bids[id] ==
              var first := FirstFor(rs, s.bids[id].digest);
              if InTable(s, id) && first.Some? then s.bids[id].(ch := SentAndClosed(s.bids[id].ch, first.value))
              else s.bids[id]
    decreases |rs|
  {
    if rs != [] {
      AnsweredValid(s, rs[0]);
      var s1 := Answered(s, rs[0]);
      FirstStatusWins(s1, rs[1..]);
      forall id | 0 <= id < |s.bids|
        ensures AnsweredAll(s, rs).bids[id] ==
                var first := FirstFor(rs, s.bids[id].digest);
                if InTable(s, id) && first.Some? then s.bids[id].(ch := SentAndClosed(s.bids[id].ch, first.value))
                else s.bids[id]
      {
        assert s1.bids[id].digest == s.bids[id].digest;
      }
    }
  }

  lemma {:induction false} AnsweredAllSnoc(s: State, rs: seq<Response>, r: Response)
    requires Valid(s)
    ensures Valid(AnsweredAll(s, rs))
    ensures AnsweredAll(s, rs + [r]) == Answered(AnsweredAll(s, rs), r)
    decreases |rs|
  {
    if rs == [] {
      AnsweredValid(s, r);
      assert (rs + [r])[1..] == [];
    } else {
      AnsweredValid(s, rs[0]);
      AnsweredAllSnoc(Answered(s, rs[0]), rs[1..], r);
      assert (rs + [r])[1..] == rs[1..] + [r];
    }
  }

  class Service {
    var bidsInProcess: map<Digest, CallID>
    var bids: seq<Waiting>

    ghost function St(): State
      reads this
    {
      State(bidsInProcess, bids)
    }

    constructor ()
      ensures St() == State(map[], [])
    {
      bidsInProcess, bids := map[], [];
    }

    /** The callback of a bid is in place before the provider can see the bid. If the provider
        does not take the bid in time, whatever callback its digest has is removed. */
    method ProcessBid(b: Bid, taken: bool) returns (c: Option<CallID>)
      modifies this
      ensures old(Valid(St())) ==> Valid(St())
      ensures c == if ValidBid(b) && taken then Some(|old(bids)|) else None
      ensures !ValidBid(b) ==> St() == old(St())
      ensures ValidBid(b) ==>
        bids == Registered(old(St()), b.digest.value).bids
      ensures ValidBid(b) ==>
        bidsInProcess == if taken then Registered(old(St()), b.digest.value).table
                         else old(bidsInProcess) - {b.digest.value}
    {
      if !ValidBid(b) {
        return None;
      }
      var digest := b.digest.value;
      var id := |bids|;
      bids := bids + [Waiting(digest, Make(1))];
      bidsInProcess := bidsInProcess[digest := id];
      if !taken {
        bidsInProcess := bidsInProcess - {digest};
        assert bidsInProcess == old(bidsInProcess) - {digest};
        return None;
      }
      c := Some(id);
    }

    /** Serves responses until one is invalid or they end. No send blocks. */
    method SendProcessedBids(responses: seq<Response>) returns (served: nat)
      requires Valid(St())
      modifies this
      ensures served <= |responses|
      ensures forall i :: 0 <= i < served ==> responses[i].status in {Accepted, Rejected}
      ensures served < |responses| ==> responses[served].status == Unspecified
      ensures Valid(St())
      ensures St() == AnsweredAll(old(St()), responses[..served])
    {
      served := 0;
      while served < |responses|
        invariant served <= |responses|
        invariant forall i :: 0 <= i < served ==> ValidResponse(responses[i])
        invariant Valid(St())
        invariant St() == AnsweredAll(old(St()), responses[..served])
      {
        var r := responses[served];
        if !ValidResponse(r) {
          return;
        }
        AnsweredAllSnoc(old(St()), responses[..served], r);
        AnsweredValid(St(), r);
        assert responses[..served + 1] == responses[..served] + [r];
        if r.digest in bidsInProcess {
          var id := bidsInProcess[r.digest];
          bidsInProcess := bidsInProcess - {r.digest};
          bids := bids[id := bids[id].(ch := bids[id].ch.Send(r.status).Close())];
        }
        served := served + 1;
      }
    }
  }
}
