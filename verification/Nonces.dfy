/** Whole runs of the transaction sender: which nonces are handed out, and how many accepted
    transactions can be ahead of the confirmed nonce. `Send` holds the client's mutex, so its
    two halves are never interleaved with another `Send`, but the confirmed nonce may be
    stored at any moment. */
module Nonces {
  import opened Prelude
  import opened TxMonitor
  import opened EvmClient

  /** A `Send` that passed the window test, with the reading it acts on. */
  datatype Sending = Sending(nonce: uint64, reading: uint64)

  /** `accepted` and `readings` are history: the nonces of accepted transactions in order of
      acceptance, and the pending nonces the node has reported. */
  datatype Sender = Sender(nonce: uint64, confirmed: uint64, sending: Option<Sending>,
                           accepted: seq<uint64>, readings: seq<uint64>)

  datatype Event =
    | Confirm(n: uint64)
    | Start(reading: Option<uint64>)
    | Finish(accepted: bool)

  const Fresh: Sender := Sender(0, 0, None, [], [])

  predicate Enabled(s: Sender, e: Event) {
    match e
    case Confirm(_) => true
    case Start(_) => s.sending.None?
    case Finish(_) => s.sending.Some?
  }

  function Apply(s: Sender, e: Event): Sender
    requires Enabled(s, e)
  {
    match e
    case Confirm(n) => s.(confirmed := n)
    case Start(reading) =>
      var s' := if reading.Some? then s.(readings := s.readings + [reading.value]) else s;
      (match Begin(s.nonce, s.confirmed, reading)
       case NoReading => s'
       case Refused(stored) => s'.(nonce := stored)
       case Going(n, stored) => s'.(nonce := stored, sending := Some(Sending(n, reading.value))))
    case Finish(accepted) =>
      if accepted then
        s.(nonce := Wrap64(s.nonce + 1), sending := None, accepted := s.accepted + [s.sending.value.nonce])
      else s.(sending := None)
  }

  /** `Start` and `Finish` are the two halves of `Client.Send`. */
  lemma SendInTwoHalves(s: Sender, a: Attempt)
    requires s.sending.None?
    ensures var s1 := Apply(s, Start(a.reading));
      match Begin(s.nonce, s.confirmed, a.reading)
      case NoReading => s1.sending.None? && s1.nonce == s.nonce
      case Refused(stored) => s1.sending.None? && s1.nonce == stored
      case Going(n, stored) =>
        var s2 := Apply(s1, Finish(a.built && a.signed.Some? && a.accepted));
        && s1.sending == Some(Sending(n, a.reading.value))
        && s2.sending.None?
        && s2.nonce == (if a.built && a.signed.Some? && a.accepted then Wrap64(stored + 1) else stored)
        && s2.accepted == s.accepted + (if a.built && a.signed.Some? && a.accepted then [n] else [])
  {
  }

  predicate CanRun(s: Sender, events: seq<Event>)
    decreases |events|
  {
    events == [] || (Enabled(s, events[0]) && CanRun(Apply(s, events[0]), events[1..]))
  }

  function Run(s: Sender, events: seq<Event>): Sender
    requires CanRun(s, events)
    decreases |events|
  {
    if events == [] then s else Run(Apply(s, events[0]), events[1..])
  }

  // ---------------------------------------------------------------- strictly increasing nonces

  ghost predicate Increasing(s: seq<uint64>) {
    forall i, j :: 0 <= i < j < |s| ==> s[i] < s[j]
  }

  /** An acceptance that restarts the count: the reading was zero although a transaction had
      been accepted before, or the previous one used up the last nonce. */
  predicate Restarts(s: Sender, e: Event)
    requires Enabled(s, e)
  {
    && e.Finish? && e.accepted
    && s.accepted != []
    && (s.sending.value.reading == 0 || s.accepted[|s.accepted| - 1] == TWO_64 - 1)
  }

  predicate EverRestarts(s: Sender, events: seq<Event>)
    requires CanRun(s, events)
    decreases |events|
  {
    events != [] && (Restarts(s, events[0]) || EverRestarts(Apply(s, events[0]), events[1..]))
  }

  ghost predicate Consistent(s: Sender) {
    && (s.sending.Some? ==>
          if s.sending.value.reading == 0 then s.sending.value.nonce == 0
          else s.sending.value.nonce == s.nonce > 0)
    && (s.sending.Some? ==> s.readings != [] && s.readings[|s.readings| - 1] == s.sending.value.reading)
  }

  /** As long as nothing restarted: the nonce field is past the last accepted nonce, unless
      that one is the first or the last of all nonces. */
  ghost predicate Ahead(s: Sender) {
    && Increasing(s.accepted)
    && (s.accepted != [] ==>
          var last := s.accepted[|s.accepted| - 1];
          last == 0 || last == TWO_64 - 1 || last < s.nonce)
  }

  lemma AheadStep(s: Sender, e: Event)
    requires Enabled(s, e) && Consistent(s) && Ahead(s) && !Restarts(s, e)
    ensures Ahead(Apply(s, e))
  {
  }

  lemma ConsistentStep(s: Sender, e: Event)
    requires Enabled(s, e) && Consistent(s)
    ensures Consistent(Apply(s, e))
    ensures s.accepted <= Apply(s, e).accepted && s.readings <= Apply(s, e).readings
  {
  }

  /** A restart breaks the order there and then. */
  lemma RestartBreaks(s: Sender, e: Event)
    requires Enabled(s, e) && Consistent(s) && Restarts(s, e)
    ensures !Increasing(Apply(s, e).accepted)
  {
    var last := |s.accepted| - 1;
    var acc := Apply(s, e).accepted;
    assert acc[last] >= acc[last + 1];
  }

  lemma {:induction false} HistoryGrows(s: Sender, events: seq<Event>)
    requires CanRun(s, events) && Consistent(s)
    ensures s.accepted <= Run(s, events).accepted
    ensures Consistent(Run(s, events))
    decreases |events|
  {
    if events != [] {
      ConsistentStep(s, events[0]);
      HistoryGrows(Apply(s, events[0]), events[1..]);
    }
  }

  lemma {:induction false} IncreasingFrom(s: Sender, events: seq<Event>)
    requires CanRun(s, events) && Consistent(s) && Ahead(s)
    ensures Increasing(Run(s, events).accepted) <==> !EverRestarts(s, events)
    decreases |events|
  {
    if events != [] {
      var s1 := Apply(s, events[0]);
      ConsistentStep(s, events[0]);
      if Restarts(s, events[0]) {
        RestartBreaks(s, events[0]);
        HistoryGrows(s1, events[1..]);
        var i, j :| 0 <= i < j < |s1.accepted| && s1.accepted[i] >= s1.accepted[j];
        var final := Run(s, events).accepted;
        assert final[i] >= final[j];
      } else {
        AheadStep(s, events[0]);
        IncreasingFrom(s1, events[1..]);
      }
    }
  }

  /** Whatever the node reports and wherever sends fail, accepted transactions carry strictly
      increasing nonces exactly when no acceptance restarts the count. */
  lemma IncreasingExactly(events: seq<Event>)
    requires CanRun(Fresh, events)
    ensures Increasing(Run(Fresh, events).accepted) <==> !EverRestarts(Fresh, events)
  {
    IncreasingFrom(Fresh, events);
  }

  /** A node that reports zero again after a transaction was accepted: nonce 0 is used twice. */
  lemma StaleZeroRepeatsNonce()
    ensures var events := [Start(Some(0)), Finish(true), Start(Some(0)), Finish(true)];
      CanRun(Fresh, events) && Run(Fresh, events).accepted == [0, 0]
  {
    var e1, e2 := Start(Some(0)), Finish(true);
    var s1 := Apply(Fresh, e1);
    var s2 := Apply(s1, e2);
    var s3 := Apply(s2, e1);
    var s4 := Apply(s3, e2);
    var events := [e1, e2, e1, e2];
    assert events[1..] == [e2, e1, e2] && [e2, e1, e2][1..] == [e1, e2] && [e1, e2][1..] == [e2] && [e2][1..] == [];
    assert CanRun(s4, []) && CanRun(s3, [e2]) && CanRun(s2, [e1, e2]) && CanRun(s1, [e2, e1, e2]);
    assert Run(s4, []) == s4 && Run(s3, [e2]) == s4 && Run(s2, [e1, e2]) == s4 && Run(s1, [e2, e1, e2]) == s4;
    assert s4.accepted == [0, 0];
  }

  // ---------------------------------------------------------------- where a nonce comes from

  /** A zero reading that is acted on although the nonce field had left zero. */
  predicate ZeroIsStale(s: Sender, e: Event)
    requires Enabled(s, e)
  {
    e.Finish? && e.accepted && s.sending.value.reading == 0 && s.nonce != 0
  }

  predicate EverStale(s: Sender, events: seq<Event>)
    requires CanRun(s, events)
    decreases |events|
  {
    events != [] && (ZeroIsStale(s, events[0]) || EverStale(Apply(s, events[0]), events[1..]))
  }

  ghost predicate Explained(x: uint64, earlier: seq<uint64>, readings: seq<uint64>) {
    || x in readings
    || (earlier != [] && x == Wrap64(earlier[|earlier| - 1] as int + 1))
  }

  ghost predicate AllExplained(s: Sender) {
    && (forall i :: 0 <= i < |s.accepted| ==> Explained(s.accepted[i], s.accepted[..i], s.readings))
    && (s.nonce == 0 || Explained(s.nonce, s.accepted, s.readings))
    && (s.nonce == 0 && s.accepted != [] ==> s.accepted[|s.accepted| - 1] == TWO_64 - 1)
  }

  /** Longer readings explain no less. */
  lemma ExplainedGrows(accepted: seq<uint64>, readings: seq<uint64>, more: seq<uint64>)
    requires forall i :: 0 <= i < |accepted| ==> Explained(accepted[i], accepted[..i], readings)
    ensures forall i :: 0 <= i < |accepted| ==> Explained(accepted[i], accepted[..i], readings + more)
  {
  }

  lemma ExplainedStart(s: Sender, reading: Option<uint64>)
    requires Enabled(s, Start(reading)) && Consistent(s) && AllExplained(s)
    ensures AllExplained(Apply(s, Start(reading)))
  {
    if reading.Some? {
      ExplainedGrows(s.accepted, s.readings, [reading.value]);
      assert reading.value in s.readings + [reading.value];
    }
  }

  lemma ExplainedStep(s: Sender, e: Event)
    requires Enabled(s, e) && Consistent(s) && AllExplained(s) && !ZeroIsStale(s, e)
    ensures AllExplained(Apply(s, e))
  {
    match e
    case Confirm(_) =>
    case Start(reading) => ExplainedStart(s, reading);
    case Finish(accepted) =>
      var s' := Apply(s, e);
      forall i | 0 <= i < |s'.accepted|
        ensures Explained(s'.accepted[i], s'.accepted[..i], s'.readings)
      {
        assert s'.accepted[..i] == s.accepted[..i];
        assert s.accepted[..|s.accepted|] == s.accepted;
      }
  }

  lemma {:induction false} ExplainedFrom(s: Sender, events: seq<Event>)
    requires CanRun(s, events) && Consistent(s) && AllExplained(s) && !EverStale(s, events)
    ensures AllExplained(Run(s, events))
    decreases |events|
  {
    if events != [] {
      ConsistentStep(s, events[0]);
      ExplainedStep(s, events[0]);
      ExplainedFrom(Apply(s, events[0]), events[1..]);
    }
  }

  /** Unless a stale zero is acted on, every accepted nonce is one the node has reported on
      this or an earlier call, or follows the nonce accepted just before. */
  lemma NoncesExplained(events: seq<Event>, i: nat)
    requires CanRun(Fresh, events) && !EverStale(Fresh, events)
    requires i < |Run(Fresh, events).accepted|
    ensures var s := Run(Fresh, events);
      Explained(s.accepted[i], s.accepted[..i], s.readings)
  {
    ExplainedFrom(Fresh, events);
  }

  // ---------------------------------------------------------------- the in-flight window

  /** How many accepted transactions have a nonce at or above `confirmed`. */
  function InFlight(accepted: seq<uint64>, confirmed: uint64): nat {
    if accepted == [] then 0
    else InFlight(accepted[..|accepted| - 1], confirmed) +
         if accepted[|accepted| - 1] >= confirmed then 1 else 0
  }

  lemma {:induction false} WindowCount(accepted: seq<uint64>, confirmed: uint64, bound: int)
    requires Increasing(accepted)
    requires forall x :: x in accepted ==> x < bound
    ensures InFlight(accepted, confirmed) <= if bound > confirmed then bound - confirmed else 0
  {
    if accepted != [] {
      var rest, last := accepted[..|accepted| - 1], accepted[|accepted| - 1];
      assert forall i :: 0 <= i < |rest| ==> rest[i] == accepted[i];
      assert last in accepted;
      assert Increasing(rest);
      WindowCount(rest, confirmed, last);
    }
  }

  /** The confirmed nonce never decreases, and stays clear of 2^64. */
  predicate ConfirmsGrow(s: Sender, events: seq<Event>)
    requires CanRun(s, events)
    decreases |events|
  {
    events == [] ||
    (&& (events[0].Confirm? ==> s.confirmed <= events[0].n && events[0].n + MAX_SENT_TXS < TWO_64)
     && ConfirmsGrow(Apply(s, events[0]), events[1..]))
  }

  ghost predicate InWindow(s: Sender) {
    && s.confirmed + MAX_SENT_TXS < TWO_64
    && (s.sending.Some? ==> s.sending.value.nonce <= s.confirmed + MAX_SENT_TXS)
    && (forall x :: x in s.accepted ==> x <= s.confirmed + MAX_SENT_TXS)
  }

  lemma {:induction false} WindowKept(s: Sender, events: seq<Event>)
    requires CanRun(s, events) && ConfirmsGrow(s, events) && InWindow(s)
    ensures InWindow(Run(s, events))
    decreases |events|
  {
    if events != [] {
      WindowKept(Apply(s, events[0]), events[1..]);
    }
  }

  /** At most `MAX_SENT_TXS + 1` accepted transactions are at or above the confirmed nonce,
      because the window test admits equality. */
  lemma InFlightBound(events: seq<Event>)
    requires CanRun(Fresh, events) && ConfirmsGrow(Fresh, events) && !EverRestarts(Fresh, events)
    ensures InFlight(Run(Fresh, events).accepted, Run(Fresh, events).confirmed) <= 1025
  {
    var s := Run(Fresh, events);
    IncreasingExactly(events);
    WindowKept(Fresh, events);
    WindowCount(s.accepted, s.confirmed, s.confirmed + MAX_SENT_TXS + 1);
  }

  function Sends(reading: uint64, k: nat): seq<Event> {
    if k == 0 then [] else [Start(Some(reading)), Finish(true)] + Sends(reading, k - 1)
  }

  function Consecutive(lo: uint64, k: nat): seq<uint64>
    requires lo + k <= TWO_64
  {
    seq(k, i requires 0 <= i < k => lo + i)
  }

  lemma {:induction false} SendsFill(s: Sender, lo: uint64, j: nat, k: nat)
    requires 0 < lo && lo + MAX_SENT_TXS + 1 < TWO_64 && j + k <= MAX_SENT_TXS + 1
    requires s.confirmed == lo && s.sending.None? && s.accepted == Consecutive(lo, j)
    requires s.nonce == if j == 0 then 0 else lo + j
    ensures CanRun(s, Sends(lo, k))
    ensures var t := Run(s, Sends(lo, k));
      && t.confirmed == lo && t.accepted == Consecutive(lo, j + k)
      && t.nonce == if j + k == 0 then 0 else lo + j + k
    decreases k
  {
    if k > 0 {
      var e1, e2 := Start(Some(lo)), Finish(true);
      var s1 := Apply(s, e1);
      var s2 := Apply(s1, e2);
      var events, tail := Sends(lo, k), Sends(lo, k - 1);
      assert events[0] == e1 && events[1..] == [e2] + tail && ([e2] + tail)[1..] == tail;
      SendsFill(s2, lo, j + 1, k - 1);
      assert CanRun(s1, [e2] + tail) && Run(s1, [e2] + tail) == Run(s2, tail);
    }
  }

  lemma {:induction false} ConsecutiveInFlight(lo: uint64, k: nat)
    requires lo + k <= TWO_64
    ensures InFlight(Consecutive(lo, k), lo) == k
  {
    if k > 0 {
      assert Consecutive(lo, k)[..k - 1] == Consecutive(lo, k - 1);
      ConsecutiveInFlight(lo, k - 1);
    }
  }

  /** The bound is reached: with an unmoving confirmed nonce, 1025 sends in a row are taken,
      and the next one is refused. */
  lemma WindowFills(lo: uint64)
    requires 0 < lo && lo + MAX_SENT_TXS + 1 < TWO_64
    ensures var events := [Confirm(lo)] + Sends(lo, MAX_SENT_TXS + 1);
      && CanRun(Fresh, events)
      && InFlight(Run(Fresh, events).accepted, lo) == 1025
      && Begin(Run(Fresh, events).nonce, lo, Some(lo)).Refused?
  {
    var events := [Confirm(lo)] + Sends(lo, MAX_SENT_TXS + 1);
    var s := Apply(Fresh, Confirm(lo));
    assert events[1..] == Sends(lo, MAX_SENT_TXS + 1);
    assert s.accepted == Consecutive(lo, 0);
    SendsFill(s, lo, 0, MAX_SENT_TXS + 1);
    ConsecutiveInFlight(lo, MAX_SENT_TXS + 1);
  }
}
