/** The sender, its background waiters and the receipt monitor, run together. Every step is
    one critical section; the node's answers, the order of steps and the shutdown are
    arbitrary. A run goes on as long as no step sends on a closed channel. */
module TxRuns {
  import opened Prelude
  import opened Channels
  import opened TxMonitor
  import E = EvmClient
  import N = Nonces

  /** The background waiter of an accepted transaction. */
  datatype Background =
    | Spawned
    | Watching(chan: ChanId)
    | Holding(result: Result)
    | Done(last: Result)

  /** A receipt check that took its snapshot and answers it entry by entry. */
  datatype CheckState =
    | Idle
    | Checking(lastNonce: uint64, hashes: seq<Hash>, nonceOf: map<Hash, uint64>, next: nat)

  /** What the node answered about a hash, and the confirmed nonce of the check that asked. */
  datatype Said = Said(hash: Hash, lastNonce: uint64, answer: Answer)

  /** `atDrain` is history: how many channels had been handed out when the monitor closed. */
  datatype Sys = Sys(
    sender: N.Sender,
    sentTxs: map<Hash, uint64>,
    mon: State,
    check: CheckState,
    drained: bool,
    atDrain: nat,
    accepted: map<Hash, uint64>,
    background: map<Hash, Background>,
    said: set<Said>)

  datatype Event =
    | Sending(e: N.Event)
    | Accepted(hash: Hash)
    | CancelAccepted(hash: Hash, nonce: uint64)
    | StartWaiter(hash: Hash)
    | WaitForReceipt(hash: Hash)
    | Snapshot(lastNonce: uint64, hashes: seq<Hash>, nonceOf: map<Hash, uint64>)
    | NodeSays(answer: Answer)
    | CheckEnds
    | Receive(hash: Hash)
    | Clear(hash: Hash)
    | TakeExtra(chan: ChanId)
    | Drain

  const Start: Sys := Sys(N.Fresh, map[], Empty, Idle, false, 0, map[], map[], {})

  /** An extra channel, handed out by `WaitForReceipt`, belongs to no background waiter. */
  predicate Owned(s: Sys, c: ChanId) {
    c < |s.mon.chans| && var h := s.mon.chans[c].hash;
    h in s.background && s.background[h] == Watching(c)
  }

  /** The node never accepts the same hash twice. `WaitForReceipt` looks a transaction up
      under the client's mutex and watches it after releasing that mutex, so that the
      transaction was once pending, but need no longer be. Nothing keeps the drain from coming
      during a check, or a check from starting after it. */
  ghost predicate Enabled(s: Sys, e: Event) {
    match e
    case Sending(e) => N.Enabled(s.sender, e) && e != N.Finish(true)
    case Accepted(h) => s.sender.sending.Some? && h !in s.accepted
    case CancelAccepted(h, _) => s.sender.sending.None? && h !in s.accepted
    case StartWaiter(h) => h in s.background && s.background[h].Spawned?
    case WaitForReceipt(h) => h in s.accepted
    case Snapshot(lastNonce, hashes, nonceOf) =>
      s.check.Idle? && SnapshotOf(s.mon.waitMap, lastNonce, hashes, nonceOf)
    case NodeSays(_) => s.check.Checking? && s.check.next < |s.check.hashes|
    case CheckEnds => s.check.Checking?
    case Receive(h) =>
      h in s.background && s.background[h].Watching? &&
      var c := s.background[h].chan;
      c < |s.mon.chans| && s.mon.chans[c].ch.taken < |s.mon.chans[c].ch.sent|
    case Clear(h) =>
      h in s.background && s.background[h].Holding? &&
      (s.background[h].result.Mined? ==> s.sender.sending.None?)
    case TakeExtra(c) => c < |s.mon.chans| && !Owned(s, c)
    case Drain => !s.drained
  }

  ghost function DrainedMon(m: State): State {
    State(m.waitMap, seq(|m.chans|, c requires 0 <= c < |m.chans| => Dismissed(m, c)))
  }

  ghost function Apply(s: Sys, e: Event): Sys
    requires Consistent(s) && Enabled(s, e)
  {
    match e
    case Sending(e) => s.(sender := N.Apply(s.sender, e))
    case Accepted(h) =>
      var n := s.sender.sending.value.nonce;
      Record(s.(sender := N.Apply(s.sender, N.Finish(true))), h, n)
    case CancelAccepted(h, n) => Record(s, h, n)
    case StartWaiter(h) =>
      s.(mon := Watched(s.mon, h, s.accepted[h]),
         background := s.background[h := Watching(|s.mon.chans|)])
    case WaitForReceipt(h) => s.(mon := Watched(s.mon, h, s.accepted[h]))
    case Snapshot(lastNonce, hashes, nonceOf) => s.(check := Checking(lastNonce, hashes, nonceOf, 0))
    case NodeSays(answer) => Answered(s, answer)
    case CheckEnds => s.(check := Idle)
    case Receive(h) =>
      var c := s.background[h].chan;
      var ch := s.mon.chans[c].ch;
      s.(mon := TakenFrom(s.mon, c),
         background := s.background[h := Holding(ch.sent[ch.taken])])
    case Clear(h) =>
      var r := s.background[h].result;
      s.(sentTxs := if r.Mined? then s.sentTxs - {h} else s.sentTxs,
         background := s.background[h := Done(r)])
    case TakeExtra(c) => s.(mon := TakenFrom(s.mon, c))
    case Drain => s.(mon := DrainedMon(s.mon), drained := true, atDrain := |s.mon.chans|)
  }

  function TakenFrom(m: State, c: ChanId): State
    requires c < |m.chans|
  {
    m.(chans := m.chans[c := m.chans[c].(ch := Taken(m.chans[c].ch))])
  }

  function Record(s: Sys, h: Hash, n: uint64): Sys {
    s.(sentTxs := s.sentTxs[h := n],
       accepted := s.accepted[h := n],
       background := s.background[h := Spawned])
  }

  function Answered(s: Sys, answer: Answer): Sys
    requires s.check.Checking? && s.check.next < |s.check.hashes|
    requires s.check.hashes[s.check.next] in s.check.nonceOf
  {
    var h := s.check.hashes[s.check.next];
    var s1 := s.(check := s.check.(next := s.check.next + 1),
                 said := s.said + {Said(h, s.check.lastNonce, answer)});
    match ResultOf(answer)
    case None => s1
    case Some(r) => s1.(mon := Notified(s.mon, s.check.nonceOf[h], h, r))
  }

  // ---------------------------------------------------------------- the invariant

  ghost predicate MonitorOk(s: Sys) {
    && NoEmpties(s.mon.waitMap) && Filed(s.mon)
    && (s.drained ==> s.atDrain <= |s.mon.chans|)
    && forall c :: 0 <= c < |s.mon.chans| ==> ChannelOk(s, c)
  }

  /** The channel was there when the monitor closed. */
  predicate Old(s: Sys, c: ChanId) {
    s.drained && c < s.atDrain
  }

  /** A channel is untouched and listed, or has been given exactly one result and closed. The
      drain closes what is listed without taking it off the list. */
  ghost predicate ChannelOk(s: Sys, c: ChanId)
    requires c < |s.mon.chans|
  {
    var w := s.mon.chans[c];
    && w.hash in s.accepted && s.accepted[w.hash] == w.nonce
    && if w.ch.Pristine() then Listed(s.mon, c) && !Old(s, c)
       else w.ch.Delivered() && (Listed(s.mon, c) ==> Old(s, c)) && Justified(s, w)
  }

  /** A result is the shutdown's, or stands for what the node answered about that very hash
      when its nonce was below the confirmed one: a receipt for that receipt, a cancellation for
      a not-found. */
  ghost predicate Warranted(s: Sys, h: Hash, nonce: uint64, r: Result) {
    match r
    case MonitorClosed => s.drained
    case Mined(x) => exists n :: Said(h, n, GotReceipt(x)) in s.said && nonce < n
    case Cancelled => exists n :: Said(h, n, NotFound) in s.said && nonce < n
  }

  ghost predicate Justified(s: Sys, w: Waiter)
    requires |w.ch.sent| == 1
  {
    Warranted(s, w.hash, w.nonce, w.ch.sent[0])
  }

  ghost predicate BackgroundOk(s: Sys, h: Hash)
    requires h in s.background && h in s.accepted
  {
    match s.background[h]
    case Spawned => true
    case Watching(c) => c < |s.mon.chans| && s.mon.chans[c].hash == h && s.mon.chans[c].ch.taken == 0
    case Holding(r) => Heard(s, h, r)
    case Done(r) => Heard(s, h, r)
  }

  ghost predicate Heard(s: Sys, h: Hash, r: Result)
    requires h in s.accepted
  {
    Warranted(s, h, s.accepted[h], r)
  }

  predicate ReceiptSeen(s: Sys, h: Hash)
    requires h in s.background
  {
    s.background[h].Done? && s.background[h].last.Mined?
  }

  ghost predicate TableOk(s: Sys) {
    && (forall h :: h in s.background <==> h in s.accepted)
    && (forall h :: h in s.sentTxs <==> h in s.accepted && !ReceiptSeen(s, h))
    && (forall h :: h in s.sentTxs ==> s.sentTxs[h] == s.accepted[h])
    && (forall h :: h in s.accepted ==> BackgroundOk(s, h))
  }

  ghost predicate CheckOk(s: Sys) {
    s.check.Checking? ==>
      && s.check.next <= |s.check.hashes|
      && forall h :: h in s.check.hashes ==>
           && h in s.check.nonceOf && s.check.nonceOf[h] < s.check.lastNonce
           && h in s.accepted && s.accepted[h] == s.check.nonceOf[h]
  }

  ghost predicate Consistent(s: Sys) {
    MonitorOk(s) && TableOk(s) && CheckOk(s)
  }

  /** Until the drain, the monitor's own invariant holds. */
  lemma MonitorValid(s: Sys)
    requires MonitorOk(s) && !s.drained
    ensures Valid(s.mon)
  {
    forall c | 0 <= c < |s.mon.chans|
      ensures if Listed(s.mon, c) then s.mon.chans[c].ch.Pristine() else s.mon.chans[c].ch.Delivered()
    {
      assert ChannelOk(s, c);
    }
  }

  // ---------------------------------------------------------------- what a step sends

  /** The waiters that an answer of the node is meant for. */
  function Addressees(s: Sys): seq<ChanId>
    requires s.check.Checking? && s.check.next < |s.check.hashes|
    requires s.check.hashes[s.check.next] in s.check.nonceOf
  {
    var h := s.check.hashes[s.check.next];
    Waiters(s.mon.waitMap, s.check.nonceOf[h], h)
  }

  /** The sends that a step performs while it holds the monitor's mutex neither block nor meet
      a closed channel. */
  ghost predicate Safe(s: Sys, e: Event)
    requires Consistent(s) && Enabled(s, e)
  {
    match e
    case NodeSays(answer) => ResultOf(answer).Some? ==> SendsReady(s.mon, Addressees(s))
    case Drain => forall n, h :: SendsReady(s.mon, Waiters(s.mon.waitMap, n, h))
    case _ => true
  }

  /** A receipt or a not-found comes in, after the drain, for a transaction that still has a
      waiter from before it. */
  predicate HitsDrained(s: Sys, e: Event)
    requires e.NodeSays? ==> s.check.Checking? && s.check.next < |s.check.hashes|
    requires e.NodeSays? ==> s.check.hashes[s.check.next] in s.check.nonceOf
  {
    e.NodeSays? && ResultOf(e.answer).Some? && exists c :: c in Addressees(s) && Old(s, c)
  }

  lemma AddresseesReady(s: Sys)
    requires MonitorOk(s) && CheckOk(s) && s.check.Checking? && s.check.next < |s.check.hashes|
    ensures SendsReady(s.mon, Addressees(s)) <==> forall c :: c in Addressees(s) ==> !Old(s, c)
  {
    var h := s.check.hashes[s.check.next];
    var n := s.check.nonceOf[h];
    var cs := Addressees(s);
    forall i | 0 <= i < |cs|
      ensures cs[i] < |s.mon.chans| && cs[i] !in cs[..i] && (s.mon.chans[cs[i]].ch.SendReady() <==> !Old(s, cs[i]))
    {
      assert cs[i] in cs;
      assert Listed(s.mon, cs[i]) && ChannelOk(s, cs[i]);
      assert Ascending(cs);
    }
    forall c | c in cs ensures exists i :: 0 <= i < |cs| && cs[i] == c {
    }
  }

  lemma SafeExactly(s: Sys, e: Event)
    requires Consistent(s) && Enabled(s, e)
    ensures Safe(s, e) <==> !HitsDrained(s, e)
  {
    match e
    case NodeSays(_) => AddresseesReady(s);
    case Drain =>
      MonitorValid(s);
      forall n, h ensures SendsReady(s.mon, Waiters(s.mon.waitMap, n, h)) {
        ListOfItsOwn(s.mon, n, h);
      }
    case _ =>
  }

  // ---------------------------------------------------------------- steps keep it

  /** The table of the sender does not depend on more than this of the rest. */
  lemma TableFrame(s: Sys, s': Sys)
    requires TableOk(s)
    requires s'.accepted == s.accepted && s'.sentTxs == s.sentTxs && s'.background == s.background
    requires s.said <= s'.said && (s.drained ==> s'.drained)
    requires |s.mon.chans| <= |s'.mon.chans|
    requires forall c :: 0 <= c < |s.mon.chans| ==> s'.mon.chans[c].hash == s.mon.chans[c].hash
    requires forall c :: 0 <= c < |s.mon.chans| && Owned(s, c) ==> s'.mon.chans[c].ch.taken == s.mon.chans[c].ch.taken
    ensures TableOk(s')
  {
    forall x | x in s'.accepted ensures BackgroundOk(s', x) {
      assert BackgroundOk(s, x);
      if s.background[x].Watching? {
        assert Owned(s, s.background[x].chan);
      }
    }
  }

  /** Nor does a channel that is left as it was. */
  lemma ChannelFrame(s: Sys, s': Sys, c: ChanId)
    requires c < |s.mon.chans| && c < |s'.mon.chans| && ChannelOk(s, c)
    requires s'.mon.chans[c] == s.mon.chans[c]
    requires Listed(s'.mon, c) == Listed(s.mon, c)
    requires forall h :: h in s.accepted ==> h in s'.accepted && s'.accepted[h] == s.accepted[h]
    requires s.said <= s'.said && s'.drained == s.drained && s'.atDrain == s.atDrain
    ensures ChannelOk(s', c)
  {
  }

  lemma RecordKeeps(s: Sys, h: Hash, n: uint64)
    requires Consistent(s) && h !in s.accepted
    ensures Consistent(Record(s, h, n))
  {
    var s' := Record(s, h, n);
    forall c | 0 <= c < |s.mon.chans| ensures ChannelOk(s', c) {
      ChannelFrame(s, s', c);
    }
    assert TableOk(s') by {
      forall x | x in s'.accepted ensures BackgroundOk(s', x) {
        assert x != h ==> BackgroundOk(s, x);
      }
    }
  }

  /** A new channel, watched under the nonce of an accepted transaction. */
  lemma WatchedMonitor(s: Sys, s': Sys, h: Hash)
    requires MonitorOk(s) && h in s.accepted
    requires s'.mon == Watched(s.mon, h, s.accepted[h])
    requires s'.accepted == s.accepted && s'.said == s.said && s'.drained == s.drained && s'.atDrain == s.atDrain
    ensures MonitorOk(s')
  {
    WatchedFiled(s.mon, h, s.accepted[h]);
    hide Filed;
    forall c | 0 <= c < |s'.mon.chans| ensures ChannelOk(s', c) {
      if c < |s.mon.chans| {
        ChannelFrame(s, s', c);
      }
    }
  }

  lemma StartWaiterKeeps(s: Sys, h: Hash)
    requires Consistent(s) && Enabled(s, StartWaiter(h))
    ensures Consistent(Apply(s, StartWaiter(h)))
  {
    var s' := Apply(s, StartWaiter(h));
    WatchedMonitor(s, s', h);
    hide MonitorOk;
    forall x | x in s'.accepted ensures BackgroundOk(s', x) {
      assert BackgroundOk(s, x);
    }
  }

  lemma WaitForReceiptKeeps(s: Sys, h: Hash)
    requires Consistent(s) && Enabled(s, WaitForReceipt(h))
    ensures Consistent(Apply(s, WaitForReceipt(h)))
  {
    var s' := Apply(s, WaitForReceipt(h));
    WatchedMonitor(s, s', h);
    hide MonitorOk;
    TableFrame(s, s');
  }

  /** A pending channel that is told what the node just said. */
  lemma ToldOk(s: Sys, s': Sys, c: ChanId, lastNonce: uint64, answer: Answer, r: Result)
    requires c < |s.mon.chans| && c < |s'.mon.chans| && ChannelOk(s, c) && Listed(s.mon, c) && !Old(s, c)
    requires s'.mon.chans[c] == Told(s.mon.chans[c], r) && !Listed(s'.mon, c)
    requires ResultOf(answer) == Some(r) && s.mon.chans[c].nonce < lastNonce
    requires Said(s.mon.chans[c].hash, lastNonce, answer) in s'.said && s'.accepted == s.accepted
    ensures ChannelOk(s', c)
  {
    assert s'.mon.chans[c].ch.sent[0] == r;
  }

  lemma NodeSaysMonitor(s: Sys, s': Sys, h: Hash, n: uint64, lastNonce: uint64, answer: Answer, r: Result)
    requires MonitorOk(s) && n < lastNonce && ResultOf(answer) == Some(r)
    requires forall c :: c in Waiters(s.mon.waitMap, n, h) ==> !Old(s, c)
    requires s'.mon == Notified(s.mon, n, h, r) && s'.said == s.said + {Said(h, lastNonce, answer)}
    requires s'.accepted == s.accepted && s'.drained == s.drained && s'.atDrain == s.atDrain
    ensures MonitorOk(s')
  {
    NotifiedFiled(s.mon, n, h, r);
    NotifiedTouchesItsWaiters(s.mon, n, h, r);
    hide Filed, Notified, NoEmpties, Waiters;
    forall c | 0 <= c < |s'.mon.chans| ensures ChannelOk(s', c) {
      if Listed(s.mon, c) && s.mon.chans[c].hash == h && s.mon.chans[c].nonce == n {
        ToldOk(s, s', c, lastNonce, answer, r);
      } else {
        ChannelFrame(s, s', c);
      }
    }
  }

  lemma NodeSaysTable(s: Sys, s': Sys, h: Hash, n: uint64, said: Said, r: Result)
    requires TableOk(s) && Filed(s.mon)
    requires s' == s.(check := s'.check, mon := Notified(s.mon, n, h, r), said := s.said + {said})
    ensures TableOk(s')
  {
    NotifiedTouchesItsWaiters(s.mon, n, h, r);
    hide Filed, Notified;
    TableFrame(s, s');
  }

  lemma NodeSaysKeeps(s: Sys, answer: Answer)
    requires Consistent(s) && Enabled(s, NodeSays(answer)) && Safe(s, NodeSays(answer))
    ensures Consistent(Answered(s, answer))
  {
    var h := s.check.hashes[s.check.next];
    var n := s.check.nonceOf[h];
    var s' := Answered(s, answer);
    match ResultOf(answer)
    case None =>
      forall c | 0 <= c < |s.mon.chans| ensures ChannelOk(s', c) {
        ChannelFrame(s, s', c);
      }
      TableFrame(s, s');
    case Some(r) =>
      AddresseesReady(s);
      NodeSaysMonitor(s, s', h, n, s.check.lastNonce, answer, r);
      NodeSaysTable(s, s', h, n, Said(h, s.check.lastNonce, answer), r);
      hide MonitorOk, TableOk;
  }

  /** A receive takes the one result of a channel. */
  lemma TakenMonitor(s: Sys, s': Sys, c0: ChanId)
    requires MonitorOk(s) && c0 < |s.mon.chans|
    requires s'.mon == TakenFrom(s.mon, c0)
    requires s'.accepted == s.accepted && s'.said == s.said && s'.drained == s.drained && s'.atDrain == s.atDrain
    ensures MonitorOk(s')
  {
    assert ChannelOk(s, c0);
    assert forall c :: 0 <= c < |s.mon.chans| ==> Listed(s'.mon, c) == Listed(s.mon, c);
    forall c | 0 <= c < |s'.mon.chans| ensures ChannelOk(s', c) {
      assert ChannelOk(s, c);
      if c != c0 {
        ChannelFrame(s, s', c);
      }
    }
    assert Filed(s'.mon) by {
      assert Filed(s.mon);
    }
  }

  /** Only the waiter that received moves on. */
  lemma ReceiveTable(s: Sys, s': Sys, h: Hash, r: Result)
    requires TableOk(s) && h in s.background && s.background[h].Watching?
    requires s'.accepted == s.accepted && s'.sentTxs == s.sentTxs && s'.said == s.said && s'.drained == s.drained
    requires s'.background == s.background[h := Holding(r)]
    requires |s'.mon.chans| == |s.mon.chans|
    requires forall c :: 0 <= c < |s.mon.chans| && s.mon.chans[c].hash != h ==> s'.mon.chans[c] == s.mon.chans[c]
    requires h in s.accepted && Heard(s, h, r)
    ensures TableOk(s')
  {
    forall x | x in s'.accepted ensures BackgroundOk(s', x) {
      assert BackgroundOk(s, x);
    }
  }

  lemma ReceiveKeeps(s: Sys, h: Hash)
    requires Consistent(s) && Enabled(s, Receive(h))
    ensures Consistent(Apply(s, Receive(h)))
  {
    var s' := Apply(s, Receive(h));
    var c0 := s.background[h].chan;
    assert ChannelOk(s, c0) && BackgroundOk(s, h);
    var ch := s.mon.chans[c0].ch;
    assert Heard(s, h, ch.sent[ch.taken]);
    TakenMonitor(s, s', c0);
    hide MonitorOk, TableOk, Heard, ChannelOk;
    ReceiveTable(s, s', h, ch.sent[ch.taken]);
  }

  lemma TakeExtraKeeps(s: Sys, c: ChanId)
    requires Consistent(s) && Enabled(s, TakeExtra(c))
    ensures Consistent(Apply(s, TakeExtra(c)))
  {
    var s' := Apply(s, TakeExtra(c));
    TakenMonitor(s, s', c);
    hide MonitorOk;
    TableFrame(s, s');
  }

  lemma ClearKeeps(s: Sys, h: Hash)
    requires Consistent(s) && Enabled(s, Clear(h))
    ensures Consistent(Apply(s, Clear(h)))
  {
    var s' := Apply(s, Clear(h));
    forall c | 0 <= c < |s.mon.chans| ensures ChannelOk(s', c) {
      ChannelFrame(s, s', c);
    }
    assert TableOk(s') by {
      forall x | x in s'.accepted ensures BackgroundOk(s', x) {
        assert BackgroundOk(s, x);
      }
    }
  }

  lemma DrainKeeps(s: Sys)
    requires Consistent(s) && Enabled(s, Drain)
    ensures Drained(s.mon, Apply(s, Drain).mon)
    ensures Consistent(Apply(s, Drain))
  {
    var s' := Apply(s, Drain);
    assert MonitorOk(s') by {
      forall c | 0 <= c < |s'.mon.chans| ensures ChannelOk(s', c) {
        assert ChannelOk(s, c);
      }
    }
    hide MonitorOk;
    TableFrame(s, s');
  }

  lemma SnapshotKeeps(s: Sys, e: Event)
    requires Consistent(s) && Enabled(s, e) && e.Snapshot?
    ensures Consistent(Apply(s, e))
  {
    var s' := Apply(s, e);
    forall c | 0 <= c < |s.mon.chans| ensures ChannelOk(s', c) {
      ChannelFrame(s, s', c);
    }
    forall h | h in e.hashes ensures h in s.accepted && s.accepted[h] == e.nonceOf[h] {
      var c := Waiters(s.mon.waitMap, e.nonceOf[h], h)[0];
      assert c in Waiters(s.mon.waitMap, e.nonceOf[h], h);
      assert ChannelOk(s, c);
    }
    TableFrame(s, s');
  }

  lemma OtherKeeps(s: Sys, s': Sys)
    requires Consistent(s)
    requires s' == s.(sender := s'.sender) || s' == s.(check := Idle)
    ensures Consistent(s')
  {
    forall c | 0 <= c < |s.mon.chans| ensures ChannelOk(s', c) {
      ChannelFrame(s, s', c);
    }
    TableFrame(s, s');
  }

  lemma StepKeeps(s: Sys, e: Event)
    requires Consistent(s) && Enabled(s, e) && Safe(s, e)
    ensures Consistent(Apply(s, e))
  {
    hide Consistent, Enabled, Safe;
    match e
    case Sending(_) => OtherKeeps(s, Apply(s, e));
    case CheckEnds => OtherKeeps(s, Apply(s, e));
    case Accepted(h) => AcceptedKeeps(s, h);
    case CancelAccepted(h, n) => CancelAcceptedKeeps(s, h, n);
    case StartWaiter(h) => StartWaiterKeeps(s, h);
    case WaitForReceipt(h) => WaitForReceiptKeeps(s, h);
    case Snapshot(_, _, _) => SnapshotKeeps(s, e);
    case NodeSays(answer) => NodeSaysKeeps(s, answer);
    case Receive(h) => ReceiveKeeps(s, h);
    case TakeExtra(c) => TakeExtraKeeps(s, c);
    case Clear(h) => ClearKeeps(s, h);
    case Drain => DrainKeeps(s);
  }

  lemma AcceptedKeeps(s: Sys, h: Hash)
    requires Consistent(s) && Enabled(s, Accepted(h))
    ensures Consistent(Apply(s, Accepted(h)))
  {
    var s1 := s.(sender := N.Apply(s.sender, N.Finish(true)));
    OtherKeeps(s, s1);
    RecordKeeps(s1, h, s.sender.sending.value.nonce);
  }

  lemma CancelAcceptedKeeps(s: Sys, h: Hash, n: uint64)
    requires Consistent(s) && Enabled(s, CancelAccepted(h, n))
    ensures Consistent(Apply(s, CancelAccepted(h, n)))
  {
    RecordKeeps(s, h, n);
  }

  // ---------------------------------------------------------------- steps are those of the client

  /** The client's table without the times of creation. */
  function NonceTable(m: map<Hash, E.TxnDetails>): map<Hash, uint64> {
    map h | h in m :: m[h].nonce
  }

  /** The second half of a `Client.Send` that succeeds. */
  lemma SendAgrees(s: Sys, m: map<Hash, E.TxnDetails>, h: Hash, now: nat)
    requires Consistent(s) && s.sentTxs == NonceTable(m)
    requires s.sender.sending.Some? && h !in s.accepted
    ensures Enabled(s, Accepted(h))
    ensures var t := Apply(s, Accepted(h)); var n := s.sender.sending.value.nonce;
      && t.sentTxs == NonceTable(m[h := E.TxnDetails(n, now)])
      && t.sender == N.Apply(s.sender, N.Finish(true))
      && t.accepted == s.accepted[h := n] && t.background == s.background[h := Spawned]
      && t.mon == s.mon
  {
  }

  /** A `Client.CancelTx` that succeeds, for a transaction with nonce `n`. */
  lemma CancelAgrees(s: Sys, m: map<Hash, E.TxnDetails>, h: Hash, n: uint64, now: nat)
    requires Consistent(s) && s.sentTxs == NonceTable(m)
    requires s.sender.sending.None? && h !in s.accepted
    ensures Enabled(s, CancelAccepted(h, n))
    ensures var t := Apply(s, CancelAccepted(h, n));
      && t.sentTxs == NonceTable(m[h := E.TxnDetails(n, now)])
      && t.sender == s.sender
      && t.accepted == s.accepted[h := n] && t.background == s.background[h := Spawned]
      && t.mon == s.mon
  {
  }

  /** `Client.Resume`, once the client's mutex is free. */
  lemma ResumeAgrees(s: Sys, m: map<Hash, E.TxnDetails>, h: Hash, r: Result)
    requires Consistent(s) && s.sentTxs == NonceTable(m)
    requires s.sender.sending.None? && h in s.background && s.background[h] == Holding(r)
    ensures Enabled(s, Clear(h))
    ensures Apply(s, Clear(h)).sentTxs == NonceTable(if r.Mined? then m - {h} else m)
    ensures Apply(s, Clear(h)) == s.(sentTxs := Apply(s, Clear(h)).sentTxs, background := s.background[h := Done(r)])
  {
  }

  /** `Client.WaitForReceipt`, for a transaction that is pending when it is looked up. */
  lemma WaitAgrees(s: Sys, m: map<Hash, E.TxnDetails>, h: Hash)
    requires Consistent(s) && s.sentTxs == NonceTable(m) && h in m
    ensures Enabled(s, Event.WaitForReceipt(h))
    ensures Apply(s, Event.WaitForReceipt(h)) == s.(mon := Watched(s.mon, h, m[h].nonce))
  {
    hide MonitorOk, CheckOk;
    assert h in s.sentTxs;
  }

  /** What the monitor and other callers may do at any time: start a check when none is under
      way, end one anywhere, and receive on a channel of their own. */
  lemma MonitorFree(s: Sys, lastNonce: uint64, hashes: seq<Hash>, nonceOf: map<Hash, uint64>, answer: Answer, c: ChanId)
    requires Consistent(s)
    ensures s.check.Idle? && SnapshotOf(s.mon.waitMap, lastNonce, hashes, nonceOf) ==>
              && Enabled(s, Snapshot(lastNonce, hashes, nonceOf))
              && Apply(s, Snapshot(lastNonce, hashes, nonceOf)) == s.(check := Checking(lastNonce, hashes, nonceOf, 0))
    ensures s.check.Checking? ==> Enabled(s, CheckEnds) && Apply(s, CheckEnds) == s.(check := Idle)
    ensures s.check.Checking? && s.check.next < |s.check.hashes| ==> Enabled(s, NodeSays(answer))
    ensures !s.drained ==> Enabled(s, Drain)
    ensures c < |s.mon.chans| && !Owned(s, c) ==>
              && Enabled(s, TakeExtra(c))
              && Apply(s, TakeExtra(c)).mon.chans[c].ch == Taken(s.mon.chans[c].ch)
  {
    hide MonitorOk, TableOk;
  }

  /** The background waiter: it watches its transaction under the accepted nonce, and receives
      what is sent on that channel. */
  lemma WaiterAgrees(s: Sys, h: Hash)
    requires Consistent(s) && h in s.background
    ensures s.background[h].Spawned? ==>
              && Enabled(s, StartWaiter(h)) && h in s.accepted
              && Apply(s, StartWaiter(h)).mon == Watched(s.mon, h, s.accepted[h])
              && Apply(s, StartWaiter(h)).background == s.background[h := Watching(|s.mon.chans|)]
    ensures s.background[h].Watching? && s.background[h].chan < |s.mon.chans| ==>
              var c := s.background[h].chan; var ch := s.mon.chans[c].ch;
              && (Enabled(s, Receive(h)) <==> ch.sent != [])
              && (ch.sent != [] ==>
                    && Apply(s, Receive(h)).background == s.background[h := Holding(ch.sent[0])]
                    && Apply(s, Receive(h)).mon.chans == s.mon.chans[c := s.mon.chans[c].(ch := ch.(taken := 1))])
  {
    if h in s.accepted {
      assert BackgroundOk(s, h);
    }
    hide MonitorOk, CheckOk;
  }

  // ---------------------------------------------------------------- whole runs

  ghost predicate CanRun(s: Sys, events: seq<Event>)
    requires Consistent(s)
    decreases |events|
  {
    events == [] || (Enabled(s, events[0]) && Safe(s, events[0]) && (StepKeeps(s, events[0]); CanRun(Apply(s, events[0]), events[1..])))
  }

  ghost function Run(s: Sys, events: seq<Event>): (t: Sys)
    requires Consistent(s) && CanRun(s, events)
    ensures Consistent(t)
    decreases |events|
  {
    if events == [] then s else
      StepKeeps(s, events[0]);
      Run(Apply(s, events[0]), events[1..])
  }

  /** At any point of any run, the next step sends without blocking and on open channels only,
      unless it brings a receipt or a not-found, after the drain, for a transaction with a
      waiter from before it; then, and only then, it hits a closed channel. */
  lemma NoSendBlocks(events: seq<Event>, e: Event)
    requires CanRun(Start, events) && Enabled(Run(Start, events), e)
    ensures Safe(Run(Start, events), e) <==> !HitsDrained(Run(Start, events), e)
  {
    SafeExactly(Run(Start, events), e);
  }

  /** In every run, every channel ever handed out is either pending, so untouched and listed
      under its own transaction, or was sent one result and closed. That result is the
      shutdown's, or the node's own answer for that hash, asked once its nonce was confirmed. */
  lemma EveryChannelOnce(events: seq<Event>, c: ChanId)
    requires CanRun(Start, events)
    requires c < |Run(Start, events).mon.chans|
    ensures var s := Run(Start, events);
      var w := s.mon.chans[c];
      && NoEmpties(s.mon.waitMap)
      && if w.ch.sent == [] then !w.ch.closed && Listed(s.mon, c)
         else
           && |w.ch.sent| == 1 && w.ch.closed
           && (Listed(s.mon, c) ==> s.drained && c < s.atDrain)
           && match w.ch.sent[0]
              case MonitorClosed => s.drained
              case Mined(x) => exists n :: Said(w.hash, n, GotReceipt(x)) in s.said && w.nonce < n
              case Cancelled => exists n :: Said(w.hash, n, NotFound) in s.said && w.nonce < n
  {
    assert ChannelOk(Run(Start, events), c);
  }

  /** In every run a hash is watched under one nonce only, so that a check lists no hash twice
      and the flat reading of `Monitor.Check` applies. */
  lemma WatchedUnderOneNonce(events: seq<Event>)
    requires CanRun(Start, events)
    ensures OneNonce(Run(Start, events).mon.waitMap)
  {
    var s := Run(Start, events);
    forall n, h | Waiters(s.mon.waitMap, n, h) != [] ensures h in s.accepted && s.accepted[h] == n {
      var c := Waiters(s.mon.waitMap, n, h)[0];
      assert c in Waiters(s.mon.waitMap, n, h);
      assert ChannelOk(s, c);
    }
  }

  /** A transaction is listed as pending, under its own nonce, exactly from its acceptance
      until its background waiter has processed a receipt; the node then answered with a
      receipt for that very hash after its nonce was confirmed. */
  lemma PendingExactly(events: seq<Event>, h: Hash)
    requires CanRun(Start, events)
    ensures var s := Run(Start, events);
      && (h in s.background <==> h in s.accepted)
      && (h in s.sentTxs <==> h in s.accepted && !ReceiptSeen(s, h))
      && (h in s.sentTxs ==> s.sentTxs[h] == s.accepted[h])
      && (h in s.accepted && h !in s.sentTxs ==>
            exists n, x :: Said(h, n, GotReceipt(x)) in s.said && s.accepted[h] < n)
  {
    var s := Run(Start, events);
    if h in s.accepted {
      assert BackgroundOk(s, h);
      if h !in s.sentTxs {
        assert Heard(s, h, s.background[h].last);
      }
    }
  }

  // ---------------------------------------------------------------- cancelled transactions

  predicate CancellationSeen(s: Sys, h: Hash) {
    h in s.background && s.background[h] == Done(Result.Cancelled)
  }

  /** What clearing the table was meant to achieve: receipts and cancellations both clear. */
  ghost predicate IntendedLink(s: Sys) {
    forall h :: h in s.sentTxs <==> h in s.accepted && h in s.background && !ReceiptSeen(s, h) && !CancellationSeen(s, h)
  }

  /** The intention is met exactly as long as no waiter has processed a cancellation. */
  lemma IntendedExactly(events: seq<Event>)
    requires CanRun(Start, events)
    ensures var s := Run(Start, events);
      IntendedLink(s) <==> forall h :: h in s.background ==> s.background[h] != Done(Result.Cancelled)
  {
    var s := Run(Start, events);
    forall h ensures CancellationSeen(s, h) ==> h in s.sentTxs {
      PendingExactly(events, h);
    }
  }

  lemma DoneIsFinal(s: Sys, e: Event, h: Hash)
    requires Consistent(s) && Enabled(s, e) && Safe(s, e) && h in s.background && s.background[h].Done?
    ensures var t := Apply(s, e); h in t.background && t.background[h] == s.background[h]
  {
    hide MonitorOk, CheckOk, BackgroundOk;
  }

  lemma {:induction false} CancelledStays(s: Sys, events: seq<Event>, h: Hash)
    requires Consistent(s) && CanRun(s, events) && CancellationSeen(s, h)
    ensures h in Run(s, events).sentTxs
    decreases |events|
  {
    if events != [] {
      StepKeeps(s, events[0]);
      DoneIsFinal(s, events[0], h);
      CancelledStays(Apply(s, events[0]), events[1..], h);
    }
  }

  lemma {:induction false} RunSnoc(s: Sys, events: seq<Event>, e: Event)
    requires Consistent(s) && CanRun(s, events) && Enabled(Run(s, events), e) && Safe(Run(s, events), e)
    ensures CanRun(s, events + [e])
    ensures Run(s, events + [e]) == Apply(Run(s, events), e)
    decreases |events|
  {
    if events == [] {
      assert (events + [e])[1..] == [];
      StepKeeps(s, e);
      assert CanRun(Apply(s, e), []);
    } else {
      StepKeeps(s, events[0]);
      RunSnoc(Apply(s, events[0]), events[1..], e);
      assert (events + [e])[1..] == events[1..] + [e];
    }
  }

  lemma WatchedRun(h: Hash) returns (events: seq<Event>)
    ensures CanRun(Start, events)
    ensures var s := Run(Start, events);
      && s.mon == Watched(Empty, h, 1) && s.check.Idle? && !s.drained
      && h in s.background && s.background[h] == Watching(0)
      && s.sender.sending.None?
  {
    assert Run(Start, []) == Start;
    hide Consistent;
    RunSnoc(Start, [], Sending(N.Start(Some(1))));
    events := [] + [Sending(N.Start(Some(1)))];
    RunSnoc(Start, events, Accepted(h));
    events := events + [Accepted(h)];
    RunSnoc(Start, events, StartWaiter(h));
    events := events + [StartWaiter(h)];
  }

  lemma WatchedSnapshot(h: Hash)
    ensures SnapshotOf(Watched(Empty, h, 1).waitMap, 2, [h], map[h := 1])
    ensures Waiters(Watched(Empty, h, 1).waitMap, 1, h) == [0]
  {
    AddEntryFlat(map[], 1, h, 0);
  }

  /** The one transaction is watched and about to be answered. */
  ghost predicate Awaiting(s: Sys, h: Hash) {
    && s.mon == Watched(Empty, h, 1) && !s.drained
    && s.check == Checking(2, [h], map[h := 1], 0)
    && h in s.background && s.background[h] == Watching(0)
    && s.sender.sending.None?
  }

  lemma SnapshotRun(h: Hash) returns (events: seq<Event>)
    ensures CanRun(Start, events) && Awaiting(Run(Start, events), h)
  {
    events := WatchedRun(h);
    WatchedSnapshot(h);
    assert Consistent(Start);
    var snapshot := Snapshot(2, [h], map[h := 1]);
    assert Safe(Run(Start, events), snapshot);
    hide Consistent, Watched, SnapshotOf, Waiters, Safe;
    RunSnoc(Start, events, snapshot);
    events := events + [snapshot];
  }

  /** It is not found. */
  lemma NotFoundState(s: Sys, h: Hash)
    requires Consistent(s) && Awaiting(s, h)
    ensures Enabled(s, NodeSays(NotFound)) && Safe(s, NodeSays(NotFound))
    ensures var t := Apply(s, NodeSays(NotFound));
      && |t.mon.chans| == 1 && t.mon.chans[0] == Told(Waiter(1, h, Make(1)), Result.Cancelled)
      && h in t.background && t.background[h] == Watching(0)
      && t.sender.sending.None?
  {
    WatchedSnapshot(h);
    WatchedChans(h);
    SafeExactly(s, NodeSays(NotFound));
    hide Consistent, Watched, RemoveEntry, Safe, Waiters;
  }

  lemma NotFoundRun(h: Hash) returns (events: seq<Event>)
    ensures CanRun(Start, events)
    ensures var s := Run(Start, events);
      && |s.mon.chans| == 1 && s.mon.chans[0] == Told(Waiter(1, h, Make(1)), Result.Cancelled)
      && h in s.background && s.background[h] == Watching(0)
      && s.sender.sending.None?
  {
    events := SnapshotRun(h);
    NotFoundState(Run(Start, events), h);
    assert Consistent(Start);
    hide *;
    RunSnoc(Start, events, NodeSays(NotFound));
    events := events + [NodeSays(NotFound)];
  }

  /** The monitor is closed instead. */
  lemma DrainedState(s: Sys, h: Hash)
    requires Consistent(s) && Awaiting(s, h)
    ensures Enabled(s, Drain) && Safe(s, Drain)
    ensures Consistent(Apply(s, Drain))
    ensures forall answer :: ResultOf(answer).Some? ==>
              Enabled(Apply(s, Drain), NodeSays(answer)) && !Safe(Apply(s, Drain), NodeSays(answer))
  {
    WatchedSnapshot(h);
    WatchedChans(h);
    SafeExactly(s, Drain);
    DrainKeeps(s);
    var t := Apply(s, Drain);
    assert Addressees(t) == [0] && Old(t, 0);
    hide Consistent, Watched, Safe, Waiters;
    forall answer | ResultOf(answer).Some? ensures Enabled(t, NodeSays(answer)) && !Safe(t, NodeSays(answer)) {
      assert 0 in Addressees(t);
      SafeExactly(t, NodeSays(answer));
    }
  }

  lemma WatchedChans(h: Hash)
    ensures Watched(Empty, h, 1).chans == [Waiter(1, h, Make(1))]
  {
  }

  /** The drain comes between a check's snapshot and its answers: the answer for the one
      transaction then hits the channel that the drain closed. */
  lemma AnswerAfterDrain(h: Hash) returns (events: seq<Event>)
    ensures CanRun(Start, events)
    ensures forall answer :: ResultOf(answer).Some? ==>
              Enabled(Run(Start, events), NodeSays(answer)) && !Safe(Run(Start, events), NodeSays(answer))
  {
    events := SnapshotRun(h);
    DrainedState(Run(Start, events), h);
    assert Consistent(Start);
    hide *;
    RunSnoc(Start, events, Drain);
    events := events + [Drain];
  }

  /** A transaction with nonce 1 is accepted, watched, and found to be unknown to the node:
      its waiter is done, and it is still listed as pending. */
  lemma CancelledIsNotCleared(h: Hash) returns (events: seq<Event>)
    ensures CanRun(Start, events)
    ensures CancellationSeen(Run(Start, events), h) && h in Run(Start, events).sentTxs
  {
    events := NotFoundRun(h);
    hide Consistent;
    RunSnoc(Start, events, Receive(h));
    events := events + [Receive(h)];
    RunSnoc(Start, events, Clear(h));
    events := events + [Clear(h)];
    PendingExactly(events, h);
  }
}
