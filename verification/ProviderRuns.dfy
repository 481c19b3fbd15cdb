/** Bid registrations, hand-offs, timeouts and responses, in every interleaving. A response
    takes its callback out of the table first and calls it afterwards, outside the lock. */
module ProviderRuns {
  import opened Prelude
  import opened Channels
  import opened Preconf
  import opened ProviderService

  datatype Stage = Offered | HandedOff | TimedOut

  /** `calls` are callbacks taken out and not yet called. The rest is history: `said` is what
      the provider has sent, with multiplicities, and `replaced` are the callbacks that left the
      table because of another bid with the same digest. */
  datatype Run = Run(s: State, stages: seq<Stage>, calls: map<CallID, Status>,
                     said: multiset<(Digest, Status)>, replaced: set<CallID>)

  datatype Event =
    | Register(digest: Digest)
    | HandOff(id: CallID)
    | TimeOut(id: CallID)
    | TakeCallback(r: Response)
    | Call(id: CallID)
    | Receive(id: CallID)

  const Start: Run := Run(State(map[], []), [], map[], multiset{}, {})

  predicate Enabled(r: Run, e: Event) {
    match e
    case Register(_) => true
    case HandOff(id) => id < |r.stages| && r.stages[id].Offered?
    case TimeOut(id) => id < |r.stages| && id < |r.s.bids| && r.stages[id].Offered?
    case TakeCallback(resp) => ValidResponse(resp)
    case Call(id) => id in r.calls && id < |r.s.bids|
    case Receive(id) => id < |r.s.bids|
  }

  function Apply(r: Run, e: Event): Run
    requires Enabled(r, e)
  {
    match e
    case Register(d) =>
      r.(s := Registered(r.s, d), stages := r.stages + [Offered],
         replaced := if d in r.s.table then r.replaced + {r.s.table[d]} else r.replaced)
    case HandOff(id) => r.(stages := r.stages[id := HandedOff])
    case TimeOut(id) =>
      var d := r.s.bids[id].digest;
      r.(stages := r.stages[id := TimedOut], s := r.s.(table := r.s.table - {d}),
         replaced := if d in r.s.table && r.s.table[d] != id then r.replaced + {r.s.table[d]} else r.replaced)
    case TakeCallback(resp) =>
      var r1 := r.(said := r.said + multiset{(resp.digest, resp.status)});
      if resp.digest in r.s.table
      then r1.(s := r.s.(table := r.s.table - {resp.digest}), calls := r.calls[r.s.table[resp.digest] := resp.status])
      else r1
    case Call(id) => r.(s := r.s.(bids := Called(r.s.bids, id, r.calls[id])), calls := r.calls - {id})
    case Receive(id) => r.(s := r.s.(bids := r.s.bids[id := r.s.bids[id].(ch := Taken(r.s.bids[id].ch))]))
  }

  /** With nothing in between, a response taken and called is the serial `Answered`. */
  lemma StepsOfAnswer(r: Run, resp: Response)
    requires Inv(r) && ValidResponse(resp)
    ensures var r1 := Apply(r, TakeCallback(resp));
      if resp.digest in r.s.table
      then Enabled(r1, Call(r.s.table[resp.digest])) &&
           Apply(r1, Call(r.s.table[resp.digest])).s == Answered(r.s, resp)
      else r1.s == Answered(r.s, resp)
  {
  }

  /** The handler of a bid may receive at any time, and takes the oldest status. */
  lemma ReceiveTakes(r: Run, id: CallID)
    requires id < |r.s.bids|
    ensures Enabled(r, Receive(id))
    ensures Apply(r, Receive(id)).s == r.s.(bids := r.s.bids[id := r.s.bids[id].(ch := Taken(r.s.bids[id].ch))])
  {
  }

  /** And a registration that times out at once leaves what `ProcessBid` leaves. */
  lemma StepsOfTimeOut(r: Run, d: Digest)
    requires Inv(r)
    ensures var r1 := Apply(r, Register(d)); var id := |r.s.bids|;
      && Enabled(r1, TimeOut(id)) && Enabled(r1, HandOff(id))
      && Apply(r1, HandOff(id)).s == Registered(r.s, d)
      && Apply(r1, TimeOut(id)).s == State(r.s.table - {d}, Registered(r.s, d).bids)
  {
    assert r.s.table[d := |r.s.bids|] - {d} == r.s.table - {d};
  }

  predicate CanRun(r: Run, events: seq<Event>)
    decreases |events|
  {
    events == [] || (Enabled(r, events[0]) && CanRun(Apply(r, events[0]), events[1..]))
  }

  function After(r: Run, events: seq<Event>): Run
    requires CanRun(r, events)
    decreases |events|
  {
    if events == [] then r else After(Apply(r, events[0]), events[1..])
  }

  // ---------------------------------------------------------------- the invariant

  /** Where a bid stands: its callback is in the table, or taken out and about to be called,
      or has been called, or was replaced, or was withdrawn by its own timeout. */
  ghost predicate BidOk(r: Run, id: CallID)
    requires id < |r.s.bids| && |r.stages| == |r.s.bids|
  {
    var w := r.s.bids[id];
    if InTable(r.s, id) then w.ch.Pristine() && id !in r.calls && id !in r.replaced && !r.stages[id].TimedOut?
    else if id in r.calls then w.ch.Pristine() && (w.digest, r.calls[id]) in r.said && id !in r.replaced
    else if w.ch.Pristine() then r.stages[id].TimedOut? || id in r.replaced
    else w.ch.Delivered() && (w.digest, w.ch.sent[0]) in r.said && id !in r.replaced
  }

  ghost predicate Inv(r: Run) {
    && |r.stages| == |r.s.bids|
    && (forall d :: d in r.s.table ==> r.s.table[d] < |r.s.bids| && r.s.bids[r.s.table[d]].digest == d)
    && (forall id :: id in r.calls || id in r.replaced ==> id < |r.s.bids|)
    && (forall id :: 0 <= id < |r.s.bids| ==> BidOk(r, id))
  }

  lemma BidKept(r: Run, e: Event, id: CallID)
    requires Inv(r) && Enabled(r, e) && id < |r.s.bids|
    ensures BidOk(Apply(r, e), id)
  {
    assert BidOk(r, id);
    var r' := Apply(r, e);
    assert r'.s.bids[id].digest == r.s.bids[id].digest;
    match e
    case Register(_) =>
    case TimeOut(_) =>
    case TakeCallback(_) =>
    case _ =>
      assert r'.s.table == r.s.table && r'.said == r.said && r'.replaced == r.replaced;
  }

  lemma StepKeeps(r: Run, e: Event)
    requires Inv(r) && Enabled(r, e)
    ensures Inv(Apply(r, e))
  {
    var r' := Apply(r, e);
    forall id | 0 <= id < |r'.s.bids| ensures BidOk(r', id) {
      if id < |r.s.bids| {
        BidKept(r, e, id);
      }
    }
  }

  lemma {:induction false} RunKeeps(r: Run, events: seq<Event>)
    requires CanRun(r, events) && Inv(r)
    ensures Inv(After(r, events))
    decreases |events|
  {
    if events != [] {
      StepKeeps(r, events[0]);
      hide Inv, Enabled, Apply;
      RunKeeps(Apply(r, events[0]), events[1..]);
    }
  }

  /** In every run a response channel is sent at most one status, is closed exactly when it
      has been sent, and the status is one the provider sent for the digest of that bid. */
  lemma OneStatusEach(events: seq<Event>, id: CallID)
    requires CanRun(Start, events) && id < |After(Start, events).s.bids|
    ensures var r := After(Start, events); var w := r.s.bids[id];
      && |w.ch.sent| <= 1
      && (w.ch.closed <==> |w.ch.sent| == 1)
      && (w.ch.closed ==> (w.digest, w.ch.sent[0]) in r.said)
  {
    RunKeeps(Start, events);
    assert BidOk(After(Start, events), id);
  }

  /** No callback blocks on its channel or closes it a second time. */
  lemma CallsReady(events: seq<Event>, id: CallID)
    requires CanRun(Start, events) && Enabled(After(Start, events), Call(id))
    ensures After(Start, events).s.bids[id].ch.SendReady()
  {
    RunKeeps(Start, events);
    assert BidOk(After(Start, events), id);
  }

  /** A bid handed to the provider is in exactly one place: still in the table, about to be
      answered, answered, or replaced by another bid with its digest. */
  lemma HandedOffConserved(events: seq<Event>, id: CallID)
    requires CanRun(Start, events)
    requires var r := After(Start, events); id < |r.s.bids| && id < |r.stages| && r.stages[id].HandedOff?
    ensures var r := After(Start, events);
      Count(InTable(r.s, id)) + Count(id in r.calls) + Count(r.s.bids[id].ch.closed) + Count(id in r.replaced) == 1
  {
    RunKeeps(Start, events);
    assert BidOk(After(Start, events), id);
  }

  function Count(b: bool): nat {
    if b then 1 else 0
  }

  // ---------------------------------------------------------------- shared digests

  /** A callback that is neither in the table nor taken out, and was never called. */
  predicate Lost(r: Run, id: CallID) {
    id < |r.s.bids| && !InTable(r.s, id) && id !in r.calls && !r.s.bids[id].ch.closed
  }

  /** It stays so whatever the provider sends. */
  lemma {:induction false} LostForGood(r: Run, events: seq<Event>, id: CallID)
    requires CanRun(r, events) && Inv(r) && Lost(r, id)
    ensures Lost(After(r, events), id)
    decreases |events|
  {
    if events != [] {
      StepKeeps(r, events[0]);
      LostForGood(Apply(r, events[0]), events[1..], id);
    }
  }

  /** A second bid with the digest of a bid that is waiting replaces its callback for good. */
  lemma SecondBidReplaces(r: Run, id: CallID, more: seq<Event>)
    requires Inv(r) && id < |r.s.bids| && InTable(r.s, id)
    requires CanRun(Apply(r, Register(r.s.bids[id].digest)), more)
    ensures Lost(After(Apply(r, Register(r.s.bids[id].digest)), more), id)
  {
    var e := Register(r.s.bids[id].digest);
    assert BidOk(r, id);
    StepKeeps(r, e);
    LostForGood(Apply(r, e), more, id);
  }

  // ---------------------------------------------------------------- when a callback is lost

  /** The guards of the two ways to lose a callback: a registration finds its digest in the
      table, or a timeout finds the callback of another bid under its own digest. */
  predicate Collides(r: Run, e: Event) {
    match e
    case Register(d) => d in r.s.table
    case TimeOut(id) =>
      id < |r.s.bids| && r.s.bids[id].digest in r.s.table && r.s.table[r.s.bids[id].digest] != id
    case _ => false
  }

  predicate EverCollides(r: Run, events: seq<Event>)
    requires CanRun(r, events)
    decreases |events|
  {
    events != [] && (Collides(r, events[0]) || EverCollides(Apply(r, events[0]), events[1..]))
  }

  lemma ReplacedGrow(r: Run, e: Event)
    requires Enabled(r, e)
    ensures r.replaced <= Apply(r, e).replaced
    ensures Collides(r, e) ==> Apply(r, e).replaced != {}
    ensures !Collides(r, e) ==> Apply(r, e).replaced == r.replaced
  {
    if e.Register? && Collides(r, e) {
      assert r.s.table[e.digest] in Apply(r, e).replaced;
    }
    if e.TimeOut? && Collides(r, e) {
      assert r.s.table[r.s.bids[e.id].digest] in Apply(r, e).replaced;
    }
  }

  lemma {:induction false} ReplacedFrom(r: Run, events: seq<Event>)
    requires CanRun(r, events)
    ensures r.replaced <= After(r, events).replaced
    ensures r.replaced == {} ==> (After(r, events).replaced == {} <==> !EverCollides(r, events))
    decreases |events|
  {
    if events != [] {
      ReplacedGrow(r, events[0]);
      ReplacedFrom(Apply(r, events[0]), events[1..]);
    }
  }

  /** No callback is ever replaced exactly when no registration and no timeout of the run
      meets another bid's callback. */
  lemma ReplacedExactly(events: seq<Event>)
    requires CanRun(Start, events)
    ensures After(Start, events).replaced == {} <==> !EverCollides(Start, events)
  {
    ReplacedFrom(Start, events);
  }

  /** A bid that can never be answered although it did not time out. */
  predicate Wronged(r: Run, id: CallID) {
    Lost(r, id) && id < |r.stages| && !r.stages[id].TimedOut?
  }

  ghost predicate EverWronged(r: Run, events: seq<Event>)
    requires CanRun(r, events)
    decreases |events|
  {
    || (exists id :: Wronged(r, id))
    || (events != [] && EverWronged(Apply(r, events[0]), events[1..]))
  }

  lemma WrongedAreReplaced(r: Run)
    requires Inv(r)
    ensures forall id :: Wronged(r, id) ==> id in r.replaced
  {
    forall id | Wronged(r, id) ensures id in r.replaced {
      assert BidOk(r, id);
    }
  }

  lemma CollisionWrongs(r: Run, e: Event) returns (id: CallID)
    requires Inv(r) && Enabled(r, e) && Collides(r, e)
    ensures Wronged(Apply(r, e), id)
  {
    id := r.s.table[if e.Register? then e.digest else r.s.bids[e.id].digest];
    assert BidOk(r, id);
  }

  lemma {:induction false} WrongedFrom(r: Run, events: seq<Event>)
    requires CanRun(r, events) && Inv(r) && r.replaced == {}
    ensures EverWronged(r, events) <==> EverCollides(r, events)
    decreases |events|
  {
    WrongedAreReplaced(r);
    if events != [] {
      var r1 := Apply(r, events[0]);
      StepKeeps(r, events[0]);
      ReplacedGrow(r, events[0]);
      if Collides(r, events[0]) {
        var id := CollisionWrongs(r, events[0]);
        assert EverWronged(r1, events[1..]);
      } else {
        hide Inv, Enabled, Apply, Collides, Wronged;
        WrongedFrom(r1, events[1..]);
      }
    }
  }

  /** Said of the bids alone: at some moment a bid that has not timed out can no longer be
      answered, exactly if at some moment a registration or a timeout met another bid's
      callback. */
  lemma WrongedExactly(events: seq<Event>)
    requires CanRun(Start, events)
    ensures EverWronged(Start, events) <==> EverCollides(Start, events)
  {
    WrongedFrom(Start, events);
  }

  /** Without such a collision, every bid handed over is in the table, about to be answered,
      or answered. */
  lemma NothingLost(events: seq<Event>, id: CallID)
    requires CanRun(Start, events) && !EverCollides(Start, events)
    requires var r := After(Start, events); id < |r.s.bids| && id < |r.stages| && r.stages[id].HandedOff?
    ensures !Lost(After(Start, events), id)
  {
    ReplacedExactly(events);
    HandedOffConserved(events, id);
  }

  lemma FiveSteps(r: Run, e1: Event, r1: Run, e2: Event, r2: Run, e3: Event, r3: Run, e4: Event, r4: Run, e5: Event)
    requires Enabled(r, e1) && r1 == Apply(r, e1)
    requires Enabled(r1, e2) && r2 == Apply(r1, e2)
    requires Enabled(r2, e3) && r3 == Apply(r2, e3)
    requires Enabled(r3, e4) && r4 == Apply(r3, e4)
    requires Enabled(r4, e5)
    ensures CanRun(r, [e1, e2, e3, e4, e5])
    ensures After(r, [e1, e2, e3, e4, e5]) == Apply(r4, e5)
  {
    var r5 := Apply(r4, e5);
    hide Apply, Enabled;
    assert [e1, e2, e3, e4, e5][1..] == [e2, e3, e4, e5] && [e2, e3, e4, e5][1..] == [e3, e4, e5];
    assert [e3, e4, e5][1..] == [e4, e5] && [e4, e5][1..] == [e5] && [e5][1..] == [];
    assert CanRun(r5, []) && CanRun(r4, [e5]) && CanRun(r3, [e4, e5]) && CanRun(r2, [e3, e4, e5]) && CanRun(r1, [e2, e3, e4, e5]);
    assert After(r5, []) == r5 && After(r4, [e5]) == r5 && After(r3, [e4, e5]) == r5;
    assert After(r2, [e3, e4, e5]) == r5 && After(r1, [e2, e3, e4, e5]) == r5;
  }

  /** The timeout of an answered bid takes away the callback of a later bid that the provider
      already has. */
  lemma TimeOutTakesAnother(d: Digest)
    ensures var events := [Register(d), TakeCallback(Response(d, Accepted)), Register(d), HandOff(1), TimeOut(0)];
      && CanRun(Start, events)
      && var r := After(Start, events);
         |r.stages| == 2 && r.stages[1].HandedOff? && Lost(r, 1)
  {
    var e1, e2, e3, e4, e5 := Register(d), TakeCallback(Response(d, Accepted)), Register(d), HandOff(1), TimeOut(0);
    var r1 := Apply(Start, e1);
    var r2 := Apply(r1, e2);
    assert r2.s.table == map[] && r2.stages == [Offered] && r2.calls == map[0 := Accepted];
    var r3 := Apply(r2, e3);
    var r4 := Apply(r3, e4);
    assert r4.s.table == map[d := 1] && r4.stages == [Offered, HandedOff] && r4.calls == map[0 := Accepted];
    FiveSteps(Start, e1, r1, e2, r2, e3, r3, e4, r4, e5);
  }

  // ---------------------------------------------------------------- one answer for each response

  /** The response a bid was given, from the moment its callback was taken out. */
  function Given(r: Run, id: CallID): Option<(Digest, Status)>
    requires id < |r.s.bids|
  {
    var w := r.s.bids[id];
    if id in r.calls then Some((w.digest, r.calls[id]))
    else if w.ch.sent != [] then Some((w.digest, w.ch.sent[0]))
    else None
  }

  /** How many of the first `n` bids were given the response `x`. */
  function Uses(r: Run, n: nat, x: (Digest, Status)): nat
    requires n <= |r.s.bids|
  {
    if n == 0 then 0 else Uses(r, n - 1, x) + if Given(r, n - 1) == Some(x) then 1 else 0
  }

  lemma {:induction false} UsesSame(r: Run, r': Run, n: nat, x: (Digest, Status))
    requires n <= |r.s.bids| && n <= |r'.s.bids|
    requires forall id :: 0 <= id < n ==> Given(r', id) == Given(r, id)
    ensures Uses(r', n, x) == Uses(r, n, x)
  {
    if n > 0 {
      UsesSame(r, r', n - 1, x);
    }
  }

  lemma {:induction false} UsesOneMore(r: Run, r': Run, n: nat, id: CallID, x: (Digest, Status))
    requires id < n <= |r.s.bids| && n <= |r'.s.bids|
    requires forall k :: 0 <= k < n && k != id ==> Given(r', k) == Given(r, k)
    requires Given(r, id).None?
    ensures Uses(r', n, x) == Uses(r, n, x) + if Given(r', id) == Some(x) then 1 else 0
  {
    if id == n - 1 {
      UsesSame(r, r', n - 1, x);
    } else {
      UsesOneMore(r, r', n - 1, id, x);
    }
  }

  ghost predicate Accounted(r: Run) {
    forall x :: Uses(r, |r.s.bids|, x) <= r.said[x]
  }

  lemma AccountedStep(r: Run, e: Event)
    requires Inv(r) && Enabled(r, e) && Accounted(r)
    ensures Accounted(Apply(r, e))
  {
    var r' := Apply(r, e);
    var n := |r.s.bids|;
    if e.TakeCallback? && e.r.digest in r.s.table {
      var id := r.s.table[e.r.digest];
      assert BidOk(r, id);
      forall x ensures Uses(r', n, x) <= r'.said[x] {
        UsesOneMore(r, r', n, id, x);
      }
    } else {
      GivenSame(r, e);
      forall x ensures Uses(r', |r'.s.bids|, x) <= r'.said[x] {
        UsesSame(r, r', n, x);
      }
    }
  }

  lemma GivenSame(r: Run, e: Event)
    requires Inv(r) && Enabled(r, e)
    requires e.TakeCallback? ==> e.r.digest !in r.s.table
    ensures forall id :: 0 <= id < |r.s.bids| ==> id < |Apply(r, e).s.bids| && Given(Apply(r, e), id) == Given(r, id)
    ensures |Apply(r, e).s.bids| > |r.s.bids| ==>
              e.Register? && |Apply(r, e).s.bids| == |r.s.bids| + 1 && Given(Apply(r, e), |r.s.bids|).None?
    ensures r.said <= Apply(r, e).said
  {
    assert |r.s.bids| <= |Apply(r, e).s.bids|;
    forall id | 0 <= id < |r.s.bids| ensures Given(Apply(r, e), id) == Given(r, id) {
      assert BidOk(r, id);
    }
  }

  lemma {:induction false} AccountedFrom(r: Run, events: seq<Event>)
    requires CanRun(r, events) && Inv(r) && Accounted(r)
    ensures Accounted(After(r, events))
    decreases |events|
  {
    if events != [] {
      StepKeeps(r, events[0]);
      AccountedStep(r, events[0]);
      hide Inv, Enabled, Apply, Accounted;
      AccountedFrom(Apply(r, events[0]), events[1..]);
    }
  }

  /** No response is used twice: as many bids were given a status for a digest as the provider
      has sent, at most. */
  lemma ResponsesNotReused(events: seq<Event>, x: (Digest, Status))
    requires CanRun(Start, events)
    ensures var r := After(Start, events);
      Uses(r, |r.s.bids|, x) <= r.said[x]
  {
    AccountedFrom(Start, events);
    assert Accounted(After(Start, events));
  }

  /** Which of the first `n` bids were given the response `x`. */
  function Users(r: Run, n: nat, x: (Digest, Status)): set<CallID>
    requires n <= |r.s.bids|
  {
    set id: CallID | id < n && Given(r, id) == Some(x)
  }

  lemma {:induction false} UsesCounts(r: Run, n: nat, x: (Digest, Status))
    requires n <= |r.s.bids|
    ensures |Users(r, n, x)| == Uses(r, n, x)
  {
    if n > 0 {
      UsesCounts(r, n - 1, x);
      var last: set<CallID> := if Given(r, n - 1) == Some(x) then {n - 1} else {};
      assert Users(r, n, x) == Users(r, n - 1, x) + last;
      hide Given;
    } else {
      assert Users(r, n, x) == {};
    }
  }

  /** A status on a channel was sent by the provider for the digest of that bid. */
  lemma DeliveredWasSaid(events: seq<Event>, id: CallID)
    requires CanRun(Start, events) && id < |After(Start, events).s.bids|
    requires After(Start, events).s.bids[id].ch.sent != []
    ensures var r := After(Start, events); (r.s.bids[id].digest, r.s.bids[id].ch.sent[0]) in r.said
  {
    OneStatusEach(events, id);
  }

  /** Different bids with one digest and one status take as many responses. */
  lemma AnsweredAtMost(events: seq<Event>, d: Digest, status: Status, ids: seq<CallID>)
    requires CanRun(Start, events) && NoDuplicates(ids)
    requires forall i :: 0 <= i < |ids| ==> ids[i] < |After(Start, events).s.bids|
    requires forall i :: 0 <= i < |ids| ==>
               var w := After(Start, events).s.bids[ids[i]];
               w.digest == d && w.ch.sent != [] && w.ch.sent[0] == status
    ensures |ids| <= After(Start, events).said[(d, status)]
  {
    var r := After(Start, events);
    var x := (d, status);
    RunKeeps(Start, events);
    forall i | 0 <= i < |ids| ensures ids[i] in Users(r, |r.s.bids|, x) {
      assert BidOk(r, ids[i]);
    }
    ResponsesNotReused(events, x);
    UsesCounts(r, |r.s.bids|, x);
    ListingLength(ids, Elements(ids));
    hide BidOk, Inv, CanRun, After;
    assert Elements(ids) <= Users(r, |r.s.bids|, x);
    SubsetSize(Elements(ids), Users(r, |r.s.bids|, x));
  }

  // ---------------------------------------------------------------- distinct digests

  predicate InFlight(r: Run, id: CallID)
    requires id < |r.s.bids| && |r.stages| == |r.s.bids|
  {
    r.stages[id].Offered? || InTable(r.s, id)
  }

  /** No bid is registered while another one with its digest is in flight. */
  ghost predicate DistinctInFlight(r: Run, events: seq<Event>)
    requires CanRun(r, events)
    decreases |events|
  {
    events != [] ==>
      && (events[0].Register? && |r.stages| == |r.s.bids| ==>
            forall id :: 0 <= id < |r.s.bids| && InFlight(r, id) ==> r.s.bids[id].digest != events[0].digest)
      && DistinctInFlight(Apply(r, events[0]), events[1..])
  }

  ghost predicate Apart(r: Run)
    requires |r.stages| == |r.s.bids|
  {
    && r.replaced == {}
    && forall a, b ::
         0 <= a < |r.s.bids| && 0 <= b < |r.s.bids| && InFlight(r, a) && InFlight(r, b) ==>
         r.s.bids[a].digest == r.s.bids[b].digest ==> a == b
  }

  lemma ApartStep(r: Run, e: Event)
    requires Inv(r) && Apart(r) && Enabled(r, e)
    requires e.Register? ==>
               forall id :: 0 <= id < |r.s.bids| && InFlight(r, id) ==> r.s.bids[id].digest != e.digest
    ensures |Apply(r, e).stages| == |Apply(r, e).s.bids|
    ensures Apart(Apply(r, e))
  {
    var r' := Apply(r, e);
    hide BidOk;
    forall d | d in r.s.table ensures InFlight(r, r.s.table[d]) && r.s.bids[r.s.table[d]].digest == d {
    }
    assert e.TimeOut? ==> InFlight(r, e.id);
    forall id | 0 <= id < |r.s.bids| ensures r'.s.bids[id].digest == r.s.bids[id].digest {
    }
    forall id | 0 <= id < |r.s.bids| && InFlight(r', id) ensures InFlight(r, id) {
    }
  }

  /** As long as digests in flight are distinct, no callback is ever replaced: every bid
      handed over is in the table, about to be answered, or answered. */
  lemma {:induction false} DistinctNeverReplaced(r: Run, events: seq<Event>)
    requires CanRun(r, events) && Inv(r) && Apart(r) && DistinctInFlight(r, events)
    ensures After(r, events).replaced == {}
    decreases |events|
  {
    if events != [] {
      ApartStep(r, events[0]);
      StepKeeps(r, events[0]);
      hide Inv, Apart, Enabled, Apply;
      DistinctNeverReplaced(Apply(r, events[0]), events[1..]);
    } else {
      assert Apart(r);
    }
  }
}
