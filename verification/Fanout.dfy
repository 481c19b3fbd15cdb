/** Sending one bid to every provider: a worker per provider, one channel with a slot for
    each, and a closer that waits for all workers. */
module Fanout {
  import opened Prelude
  import opened Channels
  import opened P2P
  import opened Digests
  import opened Signer

  /** A verified preconfirmation, with the address of the provider that signed it. */
  datatype Answer = Answer(c: PreConfirmation, provider: Address)

  ghost predicate Genuine(sc: Scheme, a: Answer) {
    && WellSized(a.c.signature) && WellSized(a.c.bid.signature)
    && CheckedPreConfirmation(sc, a.c) == Ok(a.provider)
  }

  /** A worker talks to its provider, may come to hold a verified answer, and ends. */
  datatype Worker = Talking | Holding(a: Answer) | Ended

  /** `waiting` is the wait group's counter; `closer` tells whether the closer has returned. */
  datatype State = State(workers: seq<Worker>, waiting: nat, closer: bool, ch: Chan<Answer>, cancelled: bool,
                         received: seq<Answer>, drained: bool)

  datatype Event =
    | Fail(i: nat)
    | Verified(i: nat, a: Answer)
    | Emit(i: nat)
    | Abandon(i: nat)
    | CancelContext
    | CloseChannel
    | TakeOne
    | LoopEnds

  function Start(n: nat): State {
    State(seq(n, _ => Talking), n, false, Make(n), false, [], false)
  }

  ghost predicate Enabled(sc: Scheme, s: State, e: Event) {
    match e
    case Fail(i) => i < |s.workers| && s.workers[i].Talking? && s.waiting > 0
    case Verified(i, a) => i < |s.workers| && s.workers[i].Talking? && Genuine(sc, a)
    case Emit(i) => i < |s.workers| && s.workers[i].Holding? && s.ch.SendReady() && s.waiting > 0
    case Abandon(i) => i < |s.workers| && s.workers[i].Holding? && s.cancelled && s.waiting > 0
    case CancelContext => true
    case CloseChannel => s.waiting == 0 && !s.closer
    case TakeOne => !s.drained && s.ch.taken < |s.ch.sent|
    case LoopEnds => !s.drained && s.ch.closed && s.ch.taken == |s.ch.sent|
  }

  ghost function Apply(sc: Scheme, s: State, e: Event): State
    requires Enabled(sc, s, e)
  {
    match e
    case Fail(i) => s.(workers := s.workers[i := Ended], waiting := s.waiting - 1)
    case Verified(i, a) => s.(workers := s.workers[i := Holding(a)])
    case Emit(i) => s.(workers := s.workers[i := Ended], waiting := s.waiting - 1, ch := s.ch.Send(s.workers[i].a))
    case Abandon(i) => s.(workers := s.workers[i := Ended], waiting := s.waiting - 1)
    case CancelContext => s.(cancelled := true)
    case CloseChannel => s.(ch := s.ch.(closed := true), closer := true)
    case TakeOne => s.(ch := Taken(s.ch), received := s.received + [s.ch.sent[s.ch.taken]])
    case LoopEnds => s.(drained := true)
  }

  ghost predicate CanRun(sc: Scheme, s: State, events: seq<Event>)
    decreases |events|
  {
    events == [] || (Enabled(sc, s, events[0]) && CanRun(sc, Apply(sc, s, events[0]), events[1..]))
  }

  ghost function Run(sc: Scheme, s: State, events: seq<Event>): State
    requires CanRun(sc, s, events)
    decreases |events|
  {
    if events == [] then s else Run(sc, Apply(sc, s, events[0]), events[1..])
  }

  // ---------------------------------------------------------------- the invariant

  function Running(workers: seq<Worker>): nat {
    if workers == [] then 0
    else Running(workers[..|workers| - 1]) + if workers[|workers| - 1].Ended? then 0 else 1
  }

  lemma {:induction false} RunningUpdate(workers: seq<Worker>, i: nat, w: Worker)
    requires i < |workers|
    ensures Running(workers[i := w]) ==
            Running(workers) - (if workers[i].Ended? then 0 else 1) + (if w.Ended? then 0 else 1)
    ensures workers[i].Ended? || Running(workers) > 0
  {
    var last := |workers| - 1;
    if i < last {
      assert workers[i := w][..last] == workers[..last][i := w];
      RunningUpdate(workers[..last], i, w);
    } else {
      assert workers[i := w][..last] == workers[..last];
    }
  }

  lemma {:induction false} NoneRunning(workers: seq<Worker>, i: nat)
    requires Running(workers) == 0 && i < |workers|
    ensures workers[i].Ended?
  {
    if i < |workers| - 1 {
      NoneRunning(workers[..|workers| - 1], i);
    }
  }

  lemma {:induction false} AllTalking(n: nat)
    ensures Running(seq(n, _ => Talking)) == n
  {
    if n > 0 {
      assert seq(n, _ => Talking)[..n - 1] == seq(n - 1, _ => Talking);
      AllTalking(n - 1);
    }
  }

  ghost predicate Inv(sc: Scheme, n: nat, s: State) {
    && |s.workers| == n && s.ch.cap == n
    && s.waiting == Running(s.workers)
    && |s.ch.sent| + s.waiting <= n
    && s.ch.taken <= |s.ch.sent|
    && (s.ch.closed <==> s.closer)
    && (s.ch.closed ==> s.waiting == 0)
    && (forall i :: 0 <= i < n && s.workers[i].Holding? ==> Genuine(sc, s.workers[i].a))
    && (forall i :: 0 <= i < |s.ch.sent| ==> Genuine(sc, s.ch.sent[i]))
    && s.received == s.ch.sent[..s.ch.taken]
    && (s.drained ==> s.ch.closed && s.ch.taken == |s.ch.sent|)
  }

  lemma StepKeeps(sc: Scheme, n: nat, s: State, e: Event)
    requires Inv(sc, n, s) && Enabled(sc, s, e)
    ensures Inv(sc, n, Apply(sc, s, e))
  {
    hide Genuine;
    match e
    case Fail(i) => RunningUpdate(s.workers, i, Ended);
    case Verified(i, a) => RunningUpdate(s.workers, i, Holding(a));
    case Emit(i) => RunningUpdate(s.workers, i, Ended);
    case Abandon(i) => RunningUpdate(s.workers, i, Ended);
    case _ =>
  }

  lemma {:induction false} RunKeeps(sc: Scheme, n: nat, s: State, events: seq<Event>)
    requires Inv(sc, n, s) && CanRun(sc, s, events)
    ensures Inv(sc, n, Run(sc, s, events))
    decreases |events|
  {
    if events != [] {
      StepKeeps(sc, n, s, events[0]);
      hide Inv, Enabled, Apply;
      RunKeeps(sc, n, Apply(sc, s, events[0]), events[1..]);
    }
  }

  lemma StartInv(sc: Scheme, n: nat)
    ensures Inv(sc, n, Start(n))
  {
    AllTalking(n);
  }

  /** At most one preconfirmation per provider is emitted, every one of them verified; the
      consumer receives what was emitted, in order and nothing else, and all of it by the time
      its loop ends. */
  lemma EmittedAreVerified(sc: Scheme, n: nat, events: seq<Event>)
    requires CanRun(sc, Start(n), events)
    ensures var s := Run(sc, Start(n), events);
      && |s.ch.sent| <= n
      && (forall i :: 0 <= i < |s.ch.sent| ==>
            var a := s.ch.sent[i];
            && WellSized(a.c.signature) && WellSized(a.c.bid.signature)
            && CheckedPreConfirmation(sc, a.c) == Ok(a.provider))
      && s.received <= s.ch.sent
      && (s.drained ==> s.received == s.ch.sent)
  {
    StartInv(sc, n);
    RunKeeps(sc, n, Start(n), events);
    hide CheckedPreConfirmation;
  }

  /** A worker is free: while it talks it may fail at any time, or come to hold any
      preconfirmation that verifies, and once the context is cancelled it may give up. */
  lemma WorkersFree(sc: Scheme, n: nat, events: seq<Event>, i: nat, c: PreConfirmation)
    requires CanRun(sc, Start(n), events) && i < n
    requires WellSized(c.signature) && WellSized(c.bid.signature)
    ensures var s := Run(sc, Start(n), events);
      && |s.workers| == n
      && Enabled(sc, s, CancelContext)
      && (s.workers[i].Talking? ==> Enabled(sc, s, Fail(i)))
      && (s.workers[i].Talking? && CheckedPreConfirmation(sc, c).Ok? ==>
            Enabled(sc, s, Verified(i, Answer(c, CheckedPreConfirmation(sc, c).value))))
      && (s.workers[i].Holding? && s.cancelled ==> Enabled(sc, s, Abandon(i)))
  {
    StartInv(sc, n);
    RunKeeps(sc, n, Start(n), events);
    var s := Run(sc, Start(n), events);
    assert |s.workers| == n && s.waiting == Running(s.workers);
    RunningUpdate(s.workers, i, Ended);
    hide CheckedPreConfirmation, Run, CanRun, Inv, Running;
  }

  // ---------------------------------------------------------------- nothing emitted is lost

  /** An answer sent on the channel, and the worker that sent it. */
  datatype Emission = Emission(worker: nat, answer: Answer)

  /** The answers that workers held when they sent, in the order of sending. */
  ghost function Emissions(sc: Scheme, s: State, events: seq<Event>): seq<Emission>
    requires CanRun(sc, s, events)
    decreases |events|
  {
    if events == [] then []
    else
      var rest := Emissions(sc, Apply(sc, s, events[0]), events[1..]);
      match events[0]
      case Emit(i) => [Emission(i, s.workers[i].a)] + rest
      case _ => rest
  }

  function AnswersOf(es: seq<Emission>): (r: seq<Answer>)
    ensures |r| == |es| && forall i :: 0 <= i < |es| ==> r[i] == es[i].answer
  {
    seq(|es|, i requires 0 <= i < |es| => es[i].answer)
  }

  /** Only an Emit sends, and it sends what the worker holds. */
  lemma EmitSends(sc: Scheme, s: State, e: Event)
    requires Enabled(sc, s, e)
    ensures e.Emit? ==> Apply(sc, s, e).ch.sent == s.ch.sent + [s.workers[e.i].a]
    ensures !e.Emit? ==> Apply(sc, s, e).ch.sent == s.ch.sent
  {
  }

  lemma {:induction false} SentIsEmitted(sc: Scheme, s: State, events: seq<Event>)
    requires CanRun(sc, s, events)
    ensures Run(sc, s, events).ch.sent == s.ch.sent + AnswersOf(Emissions(sc, s, events))
    decreases |events|
  {
    if events == [] {
      assert AnswersOf([]) == [];
    } else {
      var e := events[0];
      var s1 := Apply(sc, s, e);
      var rest := Emissions(sc, s1, events[1..]);
      EmitSends(sc, s, e);
      hide Apply;
      SentIsEmitted(sc, s1, events[1..]);
      if e.Emit? {
        assert AnswersOf([Emission(e.i, s.workers[e.i].a)] + rest) == [s.workers[e.i].a] + AnswersOf(rest);
      }
    }
  }

  predicate EmittedBy(es: seq<Emission>, i: nat) {
    exists k :: 0 <= k < |es| && es[k].worker == i
  }

  lemma EmittedByFirst(e: Emission, es: seq<Emission>, i: nat)
    ensures EmittedBy([e] + es, i) <==> e.worker == i || EmittedBy(es, i)
  {
    if e.worker == i {
      assert ([e] + es)[0].worker == i;
    }
    if k :| 0 <= k < |es| && es[k].worker == i {
      assert ([e] + es)[k + 1].worker == i;
    }
  }

  lemma StaysEnded(sc: Scheme, s: State, e: Event)
    requires Enabled(sc, s, e)
    ensures |Apply(sc, s, e).workers| == |s.workers|
    ensures forall i :: 0 <= i < |s.workers| && !Apply(sc, s, e).workers[i].Ended? ==> !s.workers[i].Ended?
    ensures e.Emit? ==> Apply(sc, s, e).workers[e.i].Ended? && !s.workers[e.i].Ended?
  {
  }

  /** No worker sends twice, and one that has ended does not send again. */
  lemma {:induction false} EachWorkerOnce(sc: Scheme, s: State, events: seq<Event>)
    requires CanRun(sc, s, events)
    ensures |Run(sc, s, events).workers| == |s.workers|
    ensures forall i, j :: 0 <= i < j < |Emissions(sc, s, events)| ==>
              Emissions(sc, s, events)[i].worker != Emissions(sc, s, events)[j].worker
    ensures forall i: nat :: EmittedBy(Emissions(sc, s, events), i) ==> i < |s.workers| && !s.workers[i].Ended?
    decreases |events|
  {
    if events != [] {
      var e := events[0];
      var s1 := Apply(sc, s, e);
      var rest := Emissions(sc, s1, events[1..]);
      EachWorkerOnce(sc, s1, events[1..]);
      StaysEnded(sc, s, e);
      hide Apply, EmittedBy;
      if e.Emit? {
        var first := Emission(e.i, s.workers[e.i].a);
        assert !EmittedBy(rest, e.i);
        forall i: nat ensures EmittedBy([first] + rest, i) ==> i < |s.workers| && !s.workers[i].Ended? {
          EmittedByFirst(first, rest, i);
        }
      }
    }
  }

  /** Without a failure or a cancelled wait, a worker that has ended has sent. */
  lemma {:induction false} EndedHasSent(sc: Scheme, s: State, events: seq<Event>, i: nat)
    requires CanRun(sc, s, events) && i < |s.workers| && i < |Run(sc, s, events).workers|
    requires forall e :: e in events ==> !e.Fail? && !e.Abandon?
    requires Run(sc, s, events).workers[i].Ended?
    ensures s.workers[i].Ended? || EmittedBy(Emissions(sc, s, events), i)
    decreases |events|
  {
    if events != [] {
      var e := events[0];
      var s1 := Apply(sc, s, e);
      var rest := Emissions(sc, s1, events[1..]);
      assert e in events && forall x :: x in events[1..] ==> x in events;
      EndedHasSent(sc, s1, events[1..], i);
      if e.Emit? {
        EmittedByFirst(Emission(e.i, s.workers[e.i].a), rest, i);
      }
    }
  }

  /** What a worker sends is what it verified. */
  lemma {:induction false} EmittedWasVerified(sc: Scheme, s: State, events: seq<Event>, k: nat)
    requires CanRun(sc, s, events) && k < |Emissions(sc, s, events)|
    requires forall i :: 0 <= i < |s.workers| ==> !s.workers[i].Holding?
    ensures var x := Emissions(sc, s, events)[k]; Verified(x.worker, x.answer) in events
  {
    HeldOrVerified(sc, s, events, Emissions(sc, s, events)[k]);
  }

  /** A worker comes to hold an answer only by verifying it. */
  lemma HoldsStep(sc: Scheme, s: State, e: Event, w: nat, a: Answer)
    requires Enabled(sc, s, e)
    ensures w < |Apply(sc, s, e).workers| && Apply(sc, s, e).workers[w] == Holding(a) ==>
              e == Verified(w, a) || (w < |s.workers| && s.workers[w] == Holding(a))
  {
  }

  lemma {:induction false} HeldOrVerified(sc: Scheme, s: State, events: seq<Event>, x: Emission)
    requires CanRun(sc, s, events) && x in Emissions(sc, s, events)
    ensures || Verified(x.worker, x.answer) in events
            || (x.worker < |s.workers| && s.workers[x.worker] == Holding(x.answer))
    decreases |events|
  {
    var e := events[0];
    var s1 := Apply(sc, s, e);
    HoldsStep(sc, s, e, x.worker, x.answer);
    if e.Emit? && x == Emission(e.i, s.workers[e.i].a) {
      assert s.workers[e.i].Holding?;
    } else {
      hide Apply, Enabled, AnswersOf;
      HeldOrVerified(sc, s1, events[1..], x);
      hide *;
      assert Verified(x.worker, x.answer) in events[1..] ==> Verified(x.worker, x.answer) in events;
      assert e in events;
    }
  }

  /** What is sent on the channel is what the workers held when they sent it, each worker at
      most once and only what it verified; at the end of its loop the consumer has received
      exactly that, in that order. */
  lemma EmissionsConserved(sc: Scheme, n: nat, events: seq<Event>)
    requires CanRun(sc, Start(n), events)
    ensures var s := Run(sc, Start(n), events); var es := Emissions(sc, Start(n), events);
      && s.ch.sent == AnswersOf(es)
      && (s.drained ==> s.received == AnswersOf(es))
      && (forall i, j :: 0 <= i < j < |es| ==> es[i].worker != es[j].worker)
      && (forall k :: 0 <= k < |es| ==> es[k].worker < n && Verified(es[k].worker, es[k].answer) in events)
  {
    var es := Emissions(sc, Start(n), events);
    SentIsEmitted(sc, Start(n), events);
    EmittedAreVerified(sc, n, events);
    EachWorkerOnce(sc, Start(n), events);
    forall k | 0 <= k < |es| ensures es[k].worker < n && Verified(es[k].worker, es[k].answer) in events {
      EmittedWasVerified(sc, Start(n), events, k);
      assert EmittedBy(es, es[k].worker);
    }
    hide Run, CanRun, Emissions;
    assert Start(n).ch.sent == [];
  }

  /** If no worker fails or is cancelled, the consumer gets one answer from each provider. */
  lemma EveryProviderHeard(sc: Scheme, n: nat, events: seq<Event>)
    requires CanRun(sc, Start(n), events) && Run(sc, Start(n), events).drained
    requires forall e :: e in events ==> !e.Fail? && !e.Abandon?
    ensures var es := Emissions(sc, Start(n), events);
      && Run(sc, Start(n), events).received == AnswersOf(es)
      && |es| == n
      && forall i: nat :: i < n ==> EmittedBy(es, i)
  {
    var es := Emissions(sc, Start(n), events);
    var s := Run(sc, Start(n), events);
    EmissionsConserved(sc, n, events);
    EachWorkerOnce(sc, Start(n), events);
    StartInv(sc, n);
    RunKeeps(sc, n, Start(n), events);
    forall i: nat | i < n ensures EmittedBy(es, i) {
      NoneRunning(s.workers, i);
      EndedHasSent(sc, Start(n), events, i);
    }
    hide Run, CanRun, Emissions, Inv;
    OneOfEach(es, n);
  }

  /** Distinct workers below `n`, all of them: `n` emissions. */
  lemma {:induction false} OneOfEach(es: seq<Emission>, n: nat)
    requires forall i, j :: 0 <= i < j < |es| ==> es[i].worker != es[j].worker
    requires forall k :: 0 <= k < |es| ==> es[k].worker < n
    requires forall i: nat :: i < n ==> EmittedBy(es, i)
    ensures |es| == n
  {
    var ws := seq(|es|, k requires 0 <= k < |es| => es[k].worker);
    forall w: nat ensures w in Below(n) <==> w in ws {
      if w < n {
        assert EmittedBy(es, w);
        var k :| 0 <= k < |es| && es[k].worker == w;
        assert ws[k] == w;
      }
    }
    ListingLength(ws, Below(n));
  }

  function Below(n: nat): (s: set<nat>)
    ensures |s| == n
    ensures forall w: nat :: w in s <==> w < n
  {
    if n == 0 then {} else Below(n - 1) + {n - 1}
  }

  // ---------------------------------------------------------------- no send blocks

  /** A worker that holds an answer can always send it at once: the buffer has room and the
      channel is open. The channel is closed only when all workers have ended, so no send
      comes after the close. */
  lemma SendsNeverBlock(sc: Scheme, n: nat, events: seq<Event>, i: nat)
    requires CanRun(sc, Start(n), events)
    requires i < n
    ensures var s := Run(sc, Start(n), events);
      && |s.workers| == n
      && (s.workers[i].Holding? ==> Enabled(sc, s, Emit(i)))
      && (s.ch.closed ==> s.workers[i].Ended?)
  {
    StartInv(sc, n);
    RunKeeps(sc, n, Start(n), events);
    var s := Run(sc, Start(n), events);
    if s.workers[i].Ended? {
    } else {
      RunningUpdate(s.workers, i, Ended);
    }
  }

  /** The channel is closed at most once, by the closer: whenever the closer gets to it, it is
      open and all workers have ended, and once it is closed the closer is done. */
  lemma ClosedOnce(sc: Scheme, n: nat, events: seq<Event>)
    requires CanRun(sc, Start(n), events)
    ensures var s := Run(sc, Start(n), events);
      && (Enabled(sc, s, CloseChannel) ==> !s.ch.closed && forall wk :: wk in s.workers ==> wk.Ended?)
      && (s.ch.closed ==> !Enabled(sc, s, CloseChannel))
  {
    StartInv(sc, n);
    RunKeeps(sc, n, Start(n), events);
    var s := Run(sc, Start(n), events);
    if s.waiting == 0 {
      forall i | 0 <= i < |s.workers| ensures s.workers[i].Ended? {
        NoneRunning(s.workers, i);
      }
    }
  }

  /** Once every worker has ended, the closer and the consumer always have a next step until
      the consumer's loop is over. */
  lemma LoopTerminates(sc: Scheme, n: nat, events: seq<Event>)
    requires CanRun(sc, Start(n), events)
    requires forall wk :: wk in Run(sc, Start(n), events).workers ==> wk.Ended?
    requires !Run(sc, Start(n), events).drained
    ensures var s := Run(sc, Start(n), events);
      Enabled(sc, s, CloseChannel) || Enabled(sc, s, TakeOne) || Enabled(sc, s, LoopEnds)
  {
    StartInv(sc, n);
    RunKeeps(sc, n, Start(n), events);
    AllEnded(Run(sc, Start(n), events).workers);
  }

  lemma {:induction false} AllEnded(workers: seq<Worker>)
    requires forall wk :: wk in workers ==> wk.Ended?
    ensures Running(workers) == 0
  {
    if workers != [] {
      AllEnded(workers[..|workers| - 1]);
    }
  }

  /** How many steps the closer and the consumer have left. */
  function Remaining(s: State): int {
    (if s.closer then 0 else 1) + (|s.ch.sent| - s.ch.taken) + (if s.drained then 0 else 1)
  }

  /** Each of their steps brings the end nearer by one. */
  lemma RemainingShrinks(sc: Scheme, s: State, e: Event)
    requires Enabled(sc, s, e) && (e.CloseChannel? || e.TakeOne? || e.LoopEnds?)
    ensures Remaining(Apply(sc, s, e)) == Remaining(s) - 1
  {
  }
}
