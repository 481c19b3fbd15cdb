/** The receipt monitor: the nested `nonce -> hash -> waiters` table, the channels handed
    out to waiters, and the batched receipt check. */
module TxMonitor {
  import opened Prelude
  import opened Channels

  const MAX_SENT_TXS: uint64 := 1024
  const BATCH_SIZE: nat := 64

  datatype Receipt = Receipt(status: uint64, block: nat)

  datatype Result = Mined(receipt: Receipt) | Cancelled | MonitorClosed

  type ChanId = nat

  type WaitMap = map<uint64, map<Hash, seq<ChanId>>>

  /** A channel together with the transaction it was handed out for. */
  datatype Waiter = Waiter(nonce: uint64, hash: Hash, ch: Chan<Result>)

  /** The channels ever handed out are `chans`, in order; a channel is named by its index. */
  datatype State = State(waitMap: WaitMap, chans: seq<Waiter>)

  /** The flat view of the nested table. */
  function Waiters(m: WaitMap, n: uint64, h: Hash): seq<ChanId> {
    if n in m && h in m[n] then m[n][h] else []
  }

  /** No inner map and no list is left empty. */
  ghost predicate NoEmpties(m: WaitMap) {
    && (forall n :: n in m ==> m[n] != map[])
    && (forall n, h :: n in m && h in m[n] ==> m[n][h] != [])
  }

  ghost predicate Ascending(s: seq<ChanId>) {
    forall i, j :: 0 <= i < j < |s| ==> s[i] < s[j]
  }

  /** Every list holds channels handed out for exactly that nonce and hash, oldest first. */
  ghost predicate Filed(s: State) {
    forall n, h :: Ascending(Waiters(s.waitMap, n, h)) &&
      forall c :: c in Waiters(s.waitMap, n, h) ==>
        c < |s.chans| && s.chans[c].nonce == n && s.chans[c].hash == h
  }

  predicate Listed(s: State, c: ChanId)
    requires c < |s.chans|
  {
    c in Waiters(s.waitMap, s.chans[c].nonce, s.chans[c].hash)
  }

  /** The invariant: a channel is either pending, listed and untouched, or delivered: given
      exactly one result, closed, and no longer listed. */
  ghost predicate Valid(s: State) {
    && NoEmpties(s.waitMap)
    && Filed(s)
    && forall c :: 0 <= c < |s.chans| ==>
         if Listed(s, c) then s.chans[c].ch.Pristine() else s.chans[c].ch.Delivered()
  }

  const Empty: State := State(map[], [])

  // ---------------------------------------------------------------- table updates

  /** Insertion, creating the inner map when the nonce is new. */
  function AddEntry(m: WaitMap, n: uint64, h: Hash, c: ChanId): WaitMap {
    var inner: map<Hash, seq<ChanId>> := if n in m then m[n] else map[];
    var list: seq<ChanId> := if h in inner then inner[h] else [];
    m[n := inner[h := list + [c]]]
  }

  /** Deletion, dropping the inner map once it is empty. */
  function RemoveEntry(m: WaitMap, n: uint64, h: Hash): WaitMap {
    if n !in m then m
    else
      var inner := m[n] - {h};
      if inner == map[] then m - {n} else m[n := inner]
  }

  lemma AddEntryFlat(m: WaitMap, n: uint64, h: Hash, c: ChanId)
    ensures forall n', h' :: Waiters(AddEntry(m, n, h, c), n', h') ==
                             Waiters(m, n', h') + if n' == n && h' == h then [c] else []
    ensures NoEmpties(m) ==> NoEmpties(AddEntry(m, n, h, c))
  {
    var m' := AddEntry(m, n, h, c);
    forall n', h'
      ensures Waiters(m', n', h') == Waiters(m, n', h') + if n' == n && h' == h then [c] else []
    {
    }
    if NoEmpties(m) {
      assert h in m'[n];
    }
  }

  lemma RemoveEntryFlat(m: WaitMap, n: uint64, h: Hash)
    ensures forall n', h' :: Waiters(RemoveEntry(m, n, h), n', h') ==
                             if n' == n && h' == h then [] else Waiters(m, n', h')
    ensures NoEmpties(m) ==> NoEmpties(RemoveEntry(m, n, h))
  {
    var m' := RemoveEntry(m, n, h);
    forall n', h'
      ensures Waiters(m', n', h') == if n' == n && h' == h then [] else Waiters(m, n', h')
    {
      if n' == n && n in m && h' != h && h' in m[n] {
        assert h' in m[n] - {h};
      }
    }
  }

  /** A table without empties is determined by its flat view. */
  lemma FlatViewDetermines(m: WaitMap, m': WaitMap)
    requires NoEmpties(m) && NoEmpties(m')
    requires forall n, h :: Waiters(m, n, h) == Waiters(m', n, h)
    ensures m == m'
  {
    forall n, h
      ensures n in m && h in m[n] <==> n in m' && h in m'[n]
      ensures n in m && h in m[n] ==> m[n][h] == m'[n][h]
    {
      assert Waiters(m, n, h) == Waiters(m', n, h);
    }
    forall n ensures n in m <==> n in m' {
      if n in m {
        var h :| h in m[n];
        assert n in m';
      }
      if n in m' {
        var h :| h in m'[n];
        assert n in m;
      }
    }
    forall n | n in m ensures m[n] == m'[n] {
      assert m[n].Keys == m'[n].Keys;
    }
  }

  // ---------------------------------------------------------------- atomic operations

  function Watched(s: State, h: Hash, n: uint64): State {
    State(AddEntry(s.waitMap, n, h, |s.chans|), s.chans + [Waiter(n, h, Make(1))])
  }

  /** A waiter that has been sent `r`, its channel closed. */
  function Told(w: Waiter, r: Result): Waiter {
    w.(ch := SentAndClosed(w.ch, r))
  }

  /** Every channel of `cs` gets `r` and is closed. */
  function Resolve(chans: seq<Waiter>, cs: seq<ChanId>, r: Result): (res: seq<Waiter>)
    ensures |res| == |chans|
    ensures forall c :: 0 <= c < |chans| ==> res[c] == if c in cs then Told(chans[c], r) else chans[c]
  {
    seq(|chans|, c requires 0 <= c < |chans| => if c in cs then Told(chans[c], r) else chans[c])
  }

  function Notified(s: State, n: uint64, h: Hash, r: Result): State {
    State(RemoveEntry(s.waitMap, n, h), Resolve(s.chans, Waiters(s.waitMap, n, h), r))
  }

  /** No send of a notification blocks while the mutex is held, none hits a closed channel,
      and no channel is closed twice. */
  ghost predicate SendsReady(s: State, cs: seq<ChanId>) {
    forall i :: 0 <= i < |cs| ==>
      cs[i] < |s.chans| && s.chans[cs[i]].ch.SendReady() && cs[i] !in cs[..i]
  }

  lemma WatchedFiled(s: State, h: Hash, n: uint64)
    requires NoEmpties(s.waitMap) && Filed(s)
    ensures NoEmpties(Watched(s, h, n).waitMap) && Filed(Watched(s, h, n))
    ensures Listed(Watched(s, h, n), |s.chans|)
    ensures forall c :: 0 <= c < |s.chans| ==> Listed(Watched(s, h, n), c) == Listed(s, c)
  {
    var s' := Watched(s, h, n);
    AddEntryFlat(s.waitMap, n, h, |s.chans|);
    forall n', h'
      ensures Ascending(Waiters(s'.waitMap, n', h'))
      ensures forall c :: c in Waiters(s'.waitMap, n', h') ==>
                c < |s'.chans| && s'.chans[c].nonce == n' && s'.chans[c].hash == h'
    {
      var was := Waiters(s.waitMap, n', h');
      assert forall i :: 0 <= i < |was| ==> was[i] in was;
    }
    forall c | 0 <= c < |s.chans| ensures Listed(s', c) == Listed(s, c) {
      assert s'.chans[c] == s.chans[c];
    }
  }

  lemma WatchedValid(s: State, h: Hash, n: uint64)
    requires Valid(s)
    ensures Valid(Watched(s, h, n))
    ensures Listed(Watched(s, h, n), |s.chans|)
  {
    WatchedFiled(s, h, n);
  }

  lemma NotifiedValid(s: State, n: uint64, h: Hash, r: Result)
    requires Valid(s)
    ensures SendsReady(s, Waiters(s.waitMap, n, h))
    ensures Valid(Notified(s, n, h, r))
  {
    var cs := Waiters(s.waitMap, n, h);
    var s' := Notified(s, n, h, r);
    RemoveEntryFlat(s.waitMap, n, h);
    forall i | 0 <= i < |cs|
      ensures cs[i] < |s.chans| && s.chans[cs[i]].ch.SendReady() && cs[i] !in cs[..i]
    {
      assert cs[i] in cs;
      assert Listed(s, cs[i]);
    }
    forall c | 0 <= c < |s'.chans|
      ensures if Listed(s', c) then s'.chans[c].ch.Pristine() else s'.chans[c].ch.Delivered()
    {
      assert c in cs ==> Listed(s, c);
    }
  }

  /** A notification reaches the listed channels of its transaction and no others. */
  lemma NotifiedTouchesItsWaiters(s: State, n: uint64, h: Hash, r: Result)
    requires Filed(s)
    ensures |Notified(s, n, h, r).chans| == |s.chans|
    ensures forall c :: 0 <= c < |s.chans| ==>
              Notified(s, n, h, r).chans[c] ==
              var w := s.chans[c];
              if Listed(s, c) && w.nonce == n && w.hash == h then Told(w, r) else w
  {
    forall c | 0 <= c < |s.chans|
      ensures c in Waiters(s.waitMap, n, h) <==> Listed(s, c) && s.chans[c].nonce == n && s.chans[c].hash == h
    {
    }
  }

  /** The table after a notification, whatever state the channels are in. */
  lemma NotifiedFiled(s: State, n: uint64, h: Hash, r: Result)
    requires NoEmpties(s.waitMap) && Filed(s)
    ensures NoEmpties(Notified(s, n, h, r).waitMap) && Filed(Notified(s, n, h, r))
    ensures forall c :: 0 <= c < |s.chans| ==>
              (Listed(Notified(s, n, h, r), c) <==> Listed(s, c) && !(s.chans[c].nonce == n && s.chans[c].hash == h))
  {
    RemoveEntryFlat(s.waitMap, n, h);
    NotifiedTouchesItsWaiters(s, n, h, r);
    hide RemoveEntry, Resolve;
  }

  // ---------------------------------------------------------------- the receipt check

  /** The node's answer to one element of a batch. */
  datatype Answer = GotReceipt(receipt: Receipt) | NotFound | OtherError | NoResult

  /** The node during one check: whether the k-th batch call fails as a whole, and otherwise
      what that call leaves in the i-th element of the batch it was sent. */
  datatype Node = Node(fails: nat -> bool, reply: (nat, seq<Hash>, nat) -> Answer)

  function Min(a: nat, b: nat): nat {
    if a < b then a else b
  }

  /** The k-th stretch of at most 64 hashes. */
  function BatchAt(hashes: seq<Hash>, k: nat): seq<Hash>
    requires BATCH_SIZE * k <= |hashes|
  {
    hashes[BATCH_SIZE * k..Min(BATCH_SIZE * (k + 1), |hashes|)]
  }

  lemma BatchEnds(hashes: seq<Hash>, k: nat, start: nat, end: nat)
    requires start == BATCH_SIZE * k < |hashes|
    requires end == if start + BATCH_SIZE > |hashes| then |hashes| else start + BATCH_SIZE
    ensures hashes[start..end] == BatchAt(hashes, k) && |BatchAt(hashes, k)| <= BATCH_SIZE
    ensures start + |BatchAt(hashes, k)| == end == Min(start + BATCH_SIZE, |hashes|)
    ensures start + BATCH_SIZE == BATCH_SIZE * (k + 1)
  {
  }

  lemma BatchFits(hashes: seq<Hash>, k: nat)
    requires BATCH_SIZE * k <= |hashes|
    ensures |BatchAt(hashes, k)| <= BATCH_SIZE && BATCH_SIZE * k + |BatchAt(hashes, k)| <= |hashes|
    ensures |BatchAt(hashes, k)| == if |hashes| - 64 * k < 64 then |hashes| - 64 * k else 64
  {
  }

  /** What the node says about the i-th entry of a snapshot. */
  function AnswerAt(node: Node, hashes: seq<Hash>, i: nat): Answer
    requires i < |hashes|
  {
    node.reply(i / BATCH_SIZE, BatchAt(hashes, i / BATCH_SIZE), i % BATCH_SIZE)
  }

  /** The reply read for an entry is the one to the element of the batch that asks for the
      hash of that entry. */
  lemma AnswersAligned(hashes: seq<Hash>, i: nat)
    requires i < |hashes|
    ensures var k, j := i / BATCH_SIZE, i % BATCH_SIZE;
      BATCH_SIZE * k <= |hashes| && j < |BatchAt(hashes, k)| && BatchAt(hashes, k)[j] == hashes[i]
  {
    assert i == BATCH_SIZE * (i / BATCH_SIZE) + i % BATCH_SIZE;
  }

  /** A node that answers each element by the hash in it. */
  ghost predicate Faithful(node: Node, truth: Hash -> Answer) {
    forall k, batch: seq<Hash>, j: nat :: j < |batch| ==> node.reply(k, batch, j) == truth(batch[j])
  }

  function ResultOf(a: Answer): Option<Result> {
    match a
    case GotReceipt(r) => Some(Mined(r))
    case NotFound => Some(Cancelled)
    case OtherError => None
    case NoResult => None
  }

  function Position(hashes: seq<Hash>, h: Hash): (i: nat)
    requires h in hashes
    ensures i < |hashes| && hashes[i] == h && h !in hashes[..i]
  {
    if hashes[0] == h then 0 else
      var i := 1 + Position(hashes[1..], h);
      assert hashes[..i] == [hashes[0]] + hashes[1..][..i - 1];
      i
  }

  /** The state after one more entry of the snapshot. */
  function Entry(t: State, hashes: seq<Hash>, nonceOf: map<Hash, uint64>, node: Node, i: nat): State
    requires i < |hashes| && hashes[i] in nonceOf
  {
    match ResultOf(AnswerAt(node, hashes, i))
    case None => t
    case Some(r) => Notified(t, nonceOf[hashes[i]], hashes[i], r)
  }

  /** The entries `0..upto` of the snapshot, answered one after the other. */
  ghost function Processed(s: State, hashes: seq<Hash>, nonceOf: map<Hash, uint64>, node: Node, upto: nat): State
    requires upto <= |hashes|
    requires forall h :: h in hashes ==> h in nonceOf
  {
    if upto == 0 then s
    else Entry(Processed(s, hashes, nonceOf, node, upto - 1), hashes, nonceOf, node, upto - 1)
  }

  /** The flat specification: what the first `upto` entries of the snapshot make of the
      waiters of nonce `n` and hash `h`. */
  ghost function Verdict(hashes: seq<Hash>, nonceOf: map<Hash, uint64>, node: Node, upto: nat,
                         n: uint64, h: Hash): Option<Result>
    requires forall h :: h in hashes ==> h in nonceOf
  {
    if h in hashes && nonceOf[h] == n && Position(hashes, h) < upto
    then ResultOf(AnswerAt(node, hashes, Position(hashes, h)))
    else None
  }

  /** A transaction is watched under one nonce only. */
  ghost predicate OneNonce(m: WaitMap) {
    forall n, n', h :: Waiters(m, n, h) != [] && Waiters(m, n', h) != [] ==> n == n'
  }

  /** `hashes` lists what was watched below `lastNonce`, and `nonceOf` tells where. */
  ghost predicate SnapshotOf(m: WaitMap, lastNonce: uint64, hashes: seq<Hash>, nonceOf: map<Hash, uint64>) {
    && (forall n: uint64, h :: n < lastNonce && Waiters(m, n, h) != [] ==> h in hashes)
    && (forall h :: h in hashes ==>
          h in nonceOf && nonceOf[h] < lastNonce && Waiters(m, nonceOf[h], h) != [])
    && (OneNonce(m) ==> NoDuplicates(hashes))
  }

  ghost predicate TableEffect(s: State, t: State, hashes: seq<Hash>, nonceOf: map<Hash, uint64>, node: Node, upto: nat)
    requires forall h :: h in hashes ==> h in nonceOf
  {
    forall n, h :: Waiters(t.waitMap, n, h) ==
      if Verdict(hashes, nonceOf, node, upto, n, h).Some? then [] else Waiters(s.waitMap, n, h)
  }

  /** What a list of verdicts makes of one waiter. */
  ghost function Answered(s: State, c: ChanId, hashes: seq<Hash>, nonceOf: map<Hash, uint64>, node: Node, upto: nat): Waiter
    requires c < |s.chans|
    requires forall h :: h in hashes ==> h in nonceOf
  {
    var w := s.chans[c];
    var v := Verdict(hashes, nonceOf, node, upto, w.nonce, w.hash);
    if v.Some? && Listed(s, c) then Told(w, v.value) else w
  }

  ghost predicate ChannelEffect(s: State, t: State, hashes: seq<Hash>, nonceOf: map<Hash, uint64>, node: Node, upto: nat)
    requires forall h :: h in hashes ==> h in nonceOf
  {
    && |t.chans| == |s.chans|
    && forall c :: 0 <= c < |s.chans| ==> t.chans[c] == Answered(s, c, hashes, nonceOf, node, upto)
  }

  /** One more entry of a duplicate-free snapshot changes the verdict on that entry alone. */
  lemma VerdictStep(hashes: seq<Hash>, nonceOf: map<Hash, uint64>, node: Node, upto: nat, n: uint64, h: Hash)
    requires 0 < upto <= |hashes|
    requires forall h :: h in hashes ==> h in nonceOf
    requires NoDuplicates(hashes)
    ensures n == nonceOf[hashes[upto - 1]] && h == hashes[upto - 1] ==>
              && Verdict(hashes, nonceOf, node, upto - 1, n, h) == None
              && Verdict(hashes, nonceOf, node, upto, n, h) == ResultOf(AnswerAt(node, hashes, upto - 1))
    ensures !(n == nonceOf[hashes[upto - 1]] && h == hashes[upto - 1]) ==>
              Verdict(hashes, nonceOf, node, upto, n, h) == Verdict(hashes, nonceOf, node, upto - 1, n, h)
  {
    hide ResultOf, AnswerAt;
    assert Position(hashes, hashes[upto - 1]) == upto - 1;
    if h in hashes && Position(hashes, h) == upto - 1 {
      assert h == hashes[upto - 1];
    }
  }

  lemma TableStep(s: State, t: State, hashes: seq<Hash>, nonceOf: map<Hash, uint64>, node: Node, upto: nat)
    requires 0 < upto <= |hashes| && NoDuplicates(hashes)
    requires forall h :: h in hashes ==> h in nonceOf
    requires TableEffect(s, t, hashes, nonceOf, node, upto - 1)
    ensures TableEffect(s, Entry(t, hashes, nonceOf, node, upto - 1), hashes, nonceOf, node, upto)
  {
    var t' := Entry(t, hashes, nonceOf, node, upto - 1);
    RemoveEntryFlat(t.waitMap, nonceOf[hashes[upto - 1]], hashes[upto - 1]);
    hide NoDuplicates, Verdict, Waiters, ResultOf, AnswerAt, RemoveEntry;
    forall n, h
      ensures Waiters(t'.waitMap, n, h) ==
              if Verdict(hashes, nonceOf, node, upto, n, h).Some? then [] else Waiters(s.waitMap, n, h)
    {
      VerdictStep(hashes, nonceOf, node, upto, n, h);
    }
  }

  /** The channels after one more entry. */
  lemma EntryTouches(t: State, hashes: seq<Hash>, nonceOf: map<Hash, uint64>, node: Node, i: nat)
    requires Valid(t) && i < |hashes| && hashes[i] in nonceOf
    ensures |Entry(t, hashes, nonceOf, node, i).chans| == |t.chans|
    ensures forall c :: 0 <= c < |t.chans| ==>
              Entry(t, hashes, nonceOf, node, i).chans[c] ==
              var w := t.chans[c]; var answer := ResultOf(AnswerAt(node, hashes, i));
              if answer.Some? && Listed(t, c) && w.nonce == nonceOf[hashes[i]] && w.hash == hashes[i]
              then Told(w, answer.value) else w
  {
    var answer := ResultOf(AnswerAt(node, hashes, i));
    if answer.Some? {
      NotifiedTouchesItsWaiters(t, nonceOf[hashes[i]], hashes[i], answer.value);
    }
    hide Valid, Notified, ResultOf, AnswerAt;
  }

  lemma ChannelStep(s: State, t: State, hashes: seq<Hash>, nonceOf: map<Hash, uint64>, node: Node, upto: nat)
    requires 0 < upto <= |hashes| && NoDuplicates(hashes)
    requires forall h :: h in hashes ==> h in nonceOf
    requires Valid(t)
    requires TableEffect(s, t, hashes, nonceOf, node, upto - 1)
    requires ChannelEffect(s, t, hashes, nonceOf, node, upto - 1)
    ensures ChannelEffect(s, Entry(t, hashes, nonceOf, node, upto - 1), hashes, nonceOf, node, upto)
  {
    var t' := Entry(t, hashes, nonceOf, node, upto - 1);
    EntryTouches(t, hashes, nonceOf, node, upto - 1);
    hide Valid, NoDuplicates, Verdict, Waiters, ResultOf, AnswerAt, Entry;
    forall c | 0 <= c < |s.chans|
      ensures t'.chans[c] == Answered(s, c, hashes, nonceOf, node, upto)
    {
      var w := s.chans[c];
      VerdictStep(hashes, nonceOf, node, upto, w.nonce, w.hash);
      assert t.chans[c] == Answered(s, c, hashes, nonceOf, node, upto - 1);
      assert Waiters(t.waitMap, w.nonce, w.hash) ==
             if Verdict(hashes, nonceOf, node, upto - 1, w.nonce, w.hash).Some? then [] else Waiters(s.waitMap, w.nonce, w.hash);
    }
  }

  /** Answering a snapshot entry by entry is the flat specification: a waiter whose hash drew
      a receipt or a not-found gets exactly that answer and leaves the table, and every other
      waiter keeps its channel, its list and its place in it. */
  lemma {:induction false} CheckRefinesFlat(s: State, hashes: seq<Hash>, nonceOf: map<Hash, uint64>, node: Node, upto: nat)
    requires Valid(s) && upto <= |hashes|
    requires forall h :: h in hashes ==> h in nonceOf
    requires NoDuplicates(hashes)
    ensures Valid(Processed(s, hashes, nonceOf, node, upto))
    ensures TableEffect(s, Processed(s, hashes, nonceOf, node, upto), hashes, nonceOf, node, upto)
    ensures ChannelEffect(s, Processed(s, hashes, nonceOf, node, upto), hashes, nonceOf, node, upto)
  {
    if upto == 0 {
      assert Processed(s, hashes, nonceOf, node, upto) == s;
    } else {
      var t := Processed(s, hashes, nonceOf, node, upto - 1);
      CheckRefinesFlat(s, hashes, nonceOf, node, upto - 1);
      EntryValid(t, hashes, nonceOf, node, upto - 1);
      TableStep(s, t, hashes, nonceOf, node, upto);
      ChannelStep(s, t, hashes, nonceOf, node, upto);
      assert Processed(s, hashes, nonceOf, node, upto) == Entry(t, hashes, nonceOf, node, upto - 1);
    }
  }

  /** A waiter that was pending and has been given `r`: sent once, closed, and off its list. */
  ghost predicate Given(s: State, t: State, c: ChanId, r: Result)
    requires c < |s.chans|
  {
    && c < |t.chans| && t.chans[c].nonce == s.chans[c].nonce && t.chans[c].hash == s.chans[c].hash
    && t.chans[c].ch.sent == [r] && t.chans[c].ch.closed && t.chans[c].ch.taken == 0
    && Waiters(t.waitMap, s.chans[c].nonce, s.chans[c].hash) == []
  }

  /** A waiter that goes on waiting: its channel, its list and its place in it are as before. */
  ghost predicate Kept(s: State, t: State, c: ChanId)
    requires c < |s.chans|
  {
    && c < |t.chans| && t.chans[c] == s.chans[c]
    && Waiters(t.waitMap, s.chans[c].nonce, s.chans[c].hash) == Waiters(s.waitMap, s.chans[c].nonce, s.chans[c].hash)
  }

  /** What an answer of the node means for a waiter: a receipt is passed on, a not-found is a
      cancellation, and any other error and a missing result leave the waiter waiting. */
  ghost predicate Follows(s: State, t: State, c: ChanId, a: Answer)
    requires c < |s.chans|
  {
    match a
    case GotReceipt(x) => Given(s, t, c, Mined(x))
    case NotFound => Given(s, t, c, Cancelled)
    case OtherError => Kept(s, t, c)
    case NoResult => Kept(s, t, c)
  }

  lemma OutcomeOf(s: State, t: State, hashes: seq<Hash>, nonceOf: map<Hash, uint64>, node: Node, upto: nat, c: ChanId)
    requires forall h :: h in hashes ==> h in nonceOf
    requires TableEffect(s, t, hashes, nonceOf, node, upto) && ChannelEffect(s, t, hashes, nonceOf, node, upto)
    requires c < |s.chans| && Listed(s, c) && s.chans[c].ch.Pristine()
    ensures var v := Verdict(hashes, nonceOf, node, upto, s.chans[c].nonce, s.chans[c].hash);
      if v.Some? then Given(s, t, c, v.value) else Kept(s, t, c)
  {
    hide Waiters, Verdict;
    assert t.chans[c] == Answered(s, c, hashes, nonceOf, node, upto);
  }

  /** The flat verdict by the answer of the node. */
  lemma VerdictAt(hashes: seq<Hash>, nonceOf: map<Hash, uint64>, node: Node, upto: nat, n: uint64, i: nat)
    requires forall h :: h in hashes ==> h in nonceOf
    requires NoDuplicates(hashes) && i < upto <= |hashes| && nonceOf[hashes[i]] == n
    ensures Verdict(hashes, nonceOf, node, upto, n, hashes[i]) ==
            match AnswerAt(node, hashes, i)
            case GotReceipt(x) => Some(Mined(x))
            case NotFound => Some(Cancelled)
            case OtherError => None
            case NoResult => None
  {
    hide AnswerAt;
    assert Position(hashes, hashes[i]) == i;
  }

  lemma NoVerdict(hashes: seq<Hash>, nonceOf: map<Hash, uint64>, node: Node, upto: nat, n: uint64, h: Hash)
    requires forall h :: h in hashes ==> h in nonceOf
    requires forall i :: 0 <= i < upto && i < |hashes| ==> !(hashes[i] == h && nonceOf[h] == n)
    ensures Verdict(hashes, nonceOf, node, upto, n, h) == None
  {
  }

  /** The outcome of a check for a pending waiter, after the first `upto` entries of the
      snapshot: it follows the answer to the entry of its transaction, if that was reached, and
      otherwise goes on waiting. */
  lemma CheckByAnswer(s: State, hashes: seq<Hash>, nonceOf: map<Hash, uint64>, node: Node, upto: nat, c: ChanId)
    requires Valid(s) && upto <= |hashes|
    requires forall h :: h in hashes ==> h in nonceOf
    requires NoDuplicates(hashes)
    requires c < |s.chans| && Listed(s, c)
    ensures var t := Processed(s, hashes, nonceOf, node, upto); var h := s.chans[c].hash;
      && (forall i :: 0 <= i < upto && hashes[i] == h && nonceOf[h] == s.chans[c].nonce ==>
            Follows(s, t, c, AnswerAt(node, hashes, i)))
      && ((forall i :: 0 <= i < upto ==> !(hashes[i] == h && nonceOf[h] == s.chans[c].nonce)) ==> Kept(s, t, c))
  {
    var t := Processed(s, hashes, nonceOf, node, upto);
    var h, n := s.chans[c].hash, s.chans[c].nonce;
    assert s.chans[c].ch.Pristine();
    CheckRefinesFlat(s, hashes, nonceOf, node, upto);
    OutcomeOf(s, t, hashes, nonceOf, node, upto, c);
    hide Valid, Processed, AnswerAt, Waiters, Given, Kept, Verdict, TableEffect, ChannelEffect, NoDuplicates;
    forall i | 0 <= i < upto && hashes[i] == h && nonceOf[h] == n
      ensures Follows(s, t, c, AnswerAt(node, hashes, i))
    {
      VerdictAt(hashes, nonceOf, node, upto, n, i);
    }
    if forall i :: 0 <= i < upto ==> !(hashes[i] == h && nonceOf[h] == n) {
      NoVerdict(hashes, nonceOf, node, upto, n, h);
    }
  }

  /** With a node that answers each element by its hash, after a complete check of a snapshot a
      pending waiter below the confirmed nonce follows what is true of its own transaction. */
  lemma CheckTellsTruth(s: State, hashes: seq<Hash>, nonceOf: map<Hash, uint64>, lastNonce: uint64,
                        node: Node, truth: Hash -> Answer, c: ChanId)
    requires Valid(s) && OneNonce(s.waitMap) && SnapshotOf(s.waitMap, lastNonce, hashes, nonceOf)
    requires Faithful(node, truth)
    requires c < |s.chans| && Listed(s, c) && s.chans[c].nonce < lastNonce
    ensures Follows(s, Processed(s, hashes, nonceOf, node, |hashes|), c, truth(s.chans[c].hash))
  {
    var h := s.chans[c].hash;
    assert Waiters(s.waitMap, s.chans[c].nonce, h) != [];
    assert nonceOf[h] == s.chans[c].nonce;
    var i := Position(hashes, h);
    CheckByAnswer(s, hashes, nonceOf, node, |hashes|, c);
    AnswersAligned(hashes, i);
    assert AnswerAt(node, hashes, i) == truth(h);
  }

  /** With a node that answers each element by its hash, the verdict on a listed transaction
      is what the node holds true of that very hash. */
  lemma VerdictFaithful(hashes: seq<Hash>, nonceOf: map<Hash, uint64>, node: Node, truth: Hash -> Answer, h: Hash)
    requires forall h :: h in hashes ==> h in nonceOf
    requires Faithful(node, truth) && h in hashes
    ensures Verdict(hashes, nonceOf, node, |hashes|, nonceOf[h], h) == ResultOf(truth(h))
  {
    AnswersAligned(hashes, Position(hashes, h));
  }

  lemma EntryValid(t: State, hashes: seq<Hash>, nonceOf: map<Hash, uint64>, node: Node, i: nat)
    requires Valid(t) && i < |hashes| && hashes[i] in nonceOf
    ensures Valid(Entry(t, hashes, nonceOf, node, i))
  {
    var answer := ResultOf(AnswerAt(node, hashes, i));
    if answer.Some? {
      NotifiedValid(t, nonceOf[hashes[i]], hashes[i], answer.value);
    }
  }

  // ---------------------------------------------------------------- the monitor object

  predicate InOlder(m: WaitMap, nonce: uint64, n: uint64) {
    n in m && n < nonce && m[n] != map[]
  }

  /** `older` lists, nonce by nonce, the hashes watched below `lastNonce`. */
  ghost predicate OlderOf(m: WaitMap, lastNonce: uint64, older: map<uint64, seq<Hash>>) {
    && (forall n :: n in older <==> InOlder(m, lastNonce, n))
    && (forall n :: n in older ==>
          n in m && NoDuplicates(older[n]) && forall h :: h in older[n] <==> h in m[n])
  }

  /** Batch `k` is the k-th stretch of at most 64 hashes. */
  predicate BatchesOf(hashes: seq<Hash>, issued: seq<seq<Hash>>) {
    forall k :: 0 <= k < |issued| ==>
      BATCH_SIZE * k < |hashes| && issued[k] == BatchAt(hashes, k)
  }

  /** The batches are the consecutive stretches of 64 hashes, the last one possibly shorter. */
  lemma BatchesExactly(hashes: seq<Hash>, issued: seq<seq<Hash>>, k: nat, i: nat)
    requires BatchesOf(hashes, issued) && k < |issued|
    ensures 64 * k < |hashes|
    ensures |issued[k]| == if |hashes| - 64 * k < 64 then |hashes| - 64 * k else 64
    ensures i < |issued[k]| ==> issued[k][i] == hashes[64 * k + i]
  {
    BatchFits(hashes, k);
  }

  lemma BatchesStep(hashes: seq<Hash>, issued: seq<seq<Hash>>)
    requires BatchesOf(hashes, issued)
    requires BATCH_SIZE * |issued| < |hashes|
    ensures BatchesOf(hashes, issued + [BatchAt(hashes, |issued|)])
  {
  }

  /** A waiter after the shutdown drain: told that the monitor closed, if it was still listed. */
  function Dismissed(s: State, c: ChanId): Waiter
    requires c < |s.chans|
  {
    var w := s.chans[c];
    if Listed(s, c) then Told(w, MonitorClosed) else w
  }

  /** The drain reaches every listed channel once and does not clear the table. */
  ghost predicate Drained(s: State, t: State) {
    && t.waitMap == s.waitMap
    && |t.chans| == |s.chans|
    && forall c :: 0 <= c < |s.chans| ==> t.chans[c] == Dismissed(s, c)
  }

  lemma UnlistedNotDismissed(s: State)
    ensures forall c :: 0 <= c < |s.chans| && s.chans[c].nonce !in s.waitMap ==> Dismissed(s, c) == s.chans[c]
  {
  }

  predicate Has(older: map<uint64, seq<Hash>>, n: uint64, h: Hash) {
    n in older && h in older[n]
  }

  ghost predicate Exclusive(older: map<uint64, seq<Hash>>) {
    && (forall n :: n in older ==> NoDuplicates(older[n]))
    && forall n, n', h :: Has(older, n, h) && Has(older, n', h) ==> n == n'
  }

  /** `hashes` lists what `older` holds under the nonces outside `rest`. */
  ghost predicate Collected(older: map<uint64, seq<Hash>>, rest: set<uint64>, hashes: seq<Hash>, nonceOf: map<Hash, uint64>) {
    && (forall n, h :: Has(older, n, h) && n !in rest ==> h in hashes)
    && (forall h :: h in hashes ==> h in nonceOf && nonceOf[h] !in rest && Has(older, nonceOf[h], h))
  }

  lemma CollectedNothing(older: map<uint64, seq<Hash>>)
    ensures Collected(older, older.Keys, [], map[])
    ensures NoDuplicates<Hash>([])
  {
  }

  lemma CollectedStep(older: map<uint64, seq<Hash>>, rest: set<uint64>, n: uint64,
                      hashes: seq<Hash>, nonceOf: map<Hash, uint64>, nonceOf': map<Hash, uint64>)
    requires n in older && n in rest
    requires Collected(older, rest, hashes, nonceOf)
    requires nonceOf'.Keys == nonceOf.Keys + set h | h in older[n]
    requires forall h :: h in nonceOf' ==> nonceOf'[h] == if h in older[n] then n else nonceOf[h]
    ensures Collected(older, rest - {n}, hashes + older[n], nonceOf')
    ensures Exclusive(older) && NoDuplicates(hashes) ==> NoDuplicates(hashes + older[n])
  {
    if Exclusive(older) && NoDuplicates(hashes) {
      var all := hashes + older[n];
      forall i, j | 0 <= i < j < |all| ensures all[i] != all[j] {
        if i < |hashes| <= j {
          assert all[i] in hashes && Has(older, nonceOf[all[i]], all[i]);
          assert all[j] in older[n] && Has(older, n, all[j]);
        }
      }
    }
  }

  lemma SnapshotComplete(m: WaitMap, lastNonce: uint64, older: map<uint64, seq<Hash>>,
                         hashes: seq<Hash>, nonceOf: map<Hash, uint64>)
    requires NoEmpties(m)
    requires OlderOf(m, lastNonce, older)
    requires Collected(older, {}, hashes, nonceOf)
    requires Exclusive(older) ==> NoDuplicates(hashes)
    ensures SnapshotOf(m, lastNonce, hashes, nonceOf)
    ensures forall h :: h in hashes ==> h in nonceOf
  {
    forall n: uint64, h | n < lastNonce
      ensures Waiters(m, n, h) != [] <==> Has(older, n, h)
    {
      assert n in m && h in m[n] ==> InOlder(m, lastNonce, n);
    }
  }

  lemma NothingOlder(m: WaitMap, lastNonce: uint64, older: map<uint64, seq<Hash>>)
    requires OlderOf(m, lastNonce, older) && |older| == 0
    ensures SnapshotOf(m, lastNonce, [], map[])
  {
    assert older == map[];
    forall n: uint64, h | n < lastNonce
      ensures Waiters(m, n, h) == []
    {
      assert InOlder(m, lastNonce, n) <==> n in older;
    }
  }

  lemma ProcessedNothing(s: State, hashes: seq<Hash>, nonceOf: map<Hash, uint64>, node: Node)
    requires forall h :: h in hashes ==> h in nonceOf
    ensures Processed(s, hashes, nonceOf, node, 0) == s
    ensures BatchesOf(hashes, [])
  {
  }

  lemma ProcessedNext(s: State, hashes: seq<Hash>, nonceOf: map<Hash, uint64>, node: Node, batch: nat, i: nat)
    requires forall h :: h in hashes ==> h in nonceOf
    requires BATCH_SIZE * batch <= i < BATCH_SIZE * (batch + 1) && i < |hashes|
    ensures var t := Processed(s, hashes, nonceOf, node, i);
      Processed(s, hashes, nonceOf, node, i + 1) ==
        match ResultOf(node.reply(batch, BatchAt(hashes, batch), i - BATCH_SIZE * batch))
        case None => t
        case Some(r) => Notified(t, nonceOf[hashes[i]], hashes[i], r)
  {
    assert i / BATCH_SIZE == batch && i % BATCH_SIZE == i - BATCH_SIZE * batch;
  }

  lemma ValidHasNoEmpties(s: State)
    requires Valid(s)
    ensures NoEmpties(s.waitMap)
  {
  }

  /** A list holds exactly the pending channels of its nonce and hash, ready to be sent to. */
  lemma ListOfItsOwn(s: State, n: uint64, h: Hash)
    requires Valid(s)
    ensures SendsReady(s, Waiters(s.waitMap, n, h))
    ensures forall c :: 0 <= c < |s.chans| ==>
              (c in Waiters(s.waitMap, n, h) <==> Listed(s, c) && s.chans[c].nonce == n && s.chans[c].hash == h)
  {
    NotifiedValid(s, n, h, MonitorClosed);
  }

  /** Because the drain leaves the table as it is, a notification after it runs into a closed
      channel exactly when its transaction still has waiters. */
  lemma NotifyAfterDrain(s: State, t: State, n: uint64, h: Hash)
    requires Valid(s) && Drained(s, t)
    ensures SendsReady(t, Waiters(t.waitMap, n, h)) <==> Waiters(s.waitMap, n, h) == []
  {
    ListOfItsOwn(s, n, h);
    var cs := Waiters(s.waitMap, n, h);
    if cs != [] {
      assert cs[0] in cs;
      assert t.chans[cs[0]].ch.closed;
    }
  }

  // ---------------------------------------------------------------- the window of open nonces

  function AllowedUpTo(confirmed: uint64): uint64 {
    Wrap64(confirmed + MAX_SENT_TXS)
  }

  lemma WindowTop(confirmed: uint64)
    ensures AllowedUpTo(confirmed) as int ==
            if confirmed + MAX_SENT_TXS < TWO_64 then confirmed + MAX_SENT_TXS else confirmed + MAX_SENT_TXS - TWO_64
  {
    var sum := confirmed + MAX_SENT_TXS;
    if sum >= TWO_64 {
      assert sum == TWO_64 + (sum - TWO_64);
    }
  }

  /** Of the nonces not yet confirmed, the window test admits those up to 1024 past the
      confirmed one as long as that sum does not overflow, and none once it does. */
  lemma WindowExactly(confirmed: uint64, n: uint64)
    requires n >= confirmed
    ensures n <= AllowedUpTo(confirmed) <==> confirmed + MAX_SENT_TXS < TWO_64 && n <= confirmed + MAX_SENT_TXS
  {
    WindowTop(confirmed);
  }

  class Monitor {
    var waitMap: WaitMap
    var chans: seq<Waiter>
    var lastConfirmedNonce: uint64

    ghost function St(): State
      reads this
    {
      State(waitMap, chans)
    }

    constructor ()
      ensures St() == Empty && lastConfirmedNonce == 0
    {
      waitMap, chans, lastConfirmedNonce := map[], [], 0;
    }

    method WatchTx(txHash: Hash, nonce: uint64) returns (c: ChanId)
      modifies this`waitMap, this`chans
      ensures old(Valid(St())) ==> Valid(St())
      ensures c == |old(chans)|
      ensures St() == Watched(old(St()), txHash, nonce)
    {
      hide Valid;
      ghost var before := St();
      if nonce !in waitMap {
        waitMap := waitMap[nonce := map[]];
      }
      c := |chans|;
      chans := chans + [Waiter(nonce, txHash, Make(1))];
      var inner: map<Hash, seq<ChanId>> := waitMap[nonce];
      var list: seq<ChanId> := if txHash in inner then inner[txHash] else [];
      waitMap := waitMap[nonce := inner[txHash := list + [c]]];
      assert St() == Watched(before, txHash, nonce);
      hide Watched;
      if Valid(before) {
        WatchedValid(before, txHash, nonce);
      }
    }

    /** Up to 1024 past the confirmed nonce, inclusive; if that sum overflows, only the nonces
        below the overflowed sum, all of them already confirmed. */
    method AllowNonce(nonce: uint64) returns (ok: bool)
      ensures lastConfirmedNonce + MAX_SENT_TXS < TWO_64 ==>
                (ok <==> nonce <= lastConfirmedNonce + MAX_SENT_TXS)
      ensures lastConfirmedNonce + MAX_SENT_TXS >= TWO_64 ==>
                (ok <==> nonce + TWO_64 <= lastConfirmedNonce + MAX_SENT_TXS) && (ok ==> nonce < lastConfirmedNonce)
    {
      WindowTop(lastConfirmedNonce);
      ok := nonce <= Wrap64(lastConfirmedNonce + MAX_SENT_TXS);
    }

    method GetOlderTxns(nonce: uint64) returns (txnMap: map<uint64, seq<Hash>>)
      ensures OlderOf(waitMap, nonce, txnMap)
    {
      txnMap := map[];
      var nonces := Range(waitMap);
      for i := 0 to |nonces|
        invariant forall n :: n in txnMap <==> InOlder(waitMap, nonce, n) && n in nonces[..i]
        invariant forall n :: n in txnMap ==>
                    n in waitMap && NoDuplicates(txnMap[n]) && forall h :: h in txnMap[n] <==> h in waitMap[n]
      {
        var k := nonces[i];
        if k < nonce {
          var hashes := Range(waitMap[k]);
          assert hashes == [] <==> waitMap[k] == map[] by {
            assert hashes != [] ==> hashes[0] in hashes;
            assert waitMap[k] == map[] <==> waitMap[k].Keys == {};
          }
          if hashes != [] {
            txnMap := txnMap[k := hashes];
          }
        }
      }
    }

    /** Sends `res` to every channel of a list and closes it. */
    method ResolveAll(cs: seq<ChanId>, res: Result)
      requires SendsReady(St(), cs)
      modifies this`chans
      ensures chans == Resolve(old(chans), cs, res)
    {
      for i := 0 to |cs|
        invariant |chans| == |old(chans)|
        invariant forall c :: 0 <= c < |chans| ==>
                    chans[c] == if c in cs[..i] then Told(old(chans)[c], res) else old(chans)[c]
      {
        var w := chans[cs[i]];
        chans := chans[cs[i] := w.(ch := w.ch.Send(res).Close())];
      }
    }

    /** Valid() makes every send ready: none blocks while the mutex is held. */
    method Notify(nonce: uint64, txn: Hash, res: Result)
      requires Valid(St())
      modifies this`waitMap, this`chans
      ensures Valid(St())
      ensures St() == Notified(old(St()), nonce, txn, res)
    {
      NotifiedValid(St(), nonce, txn, res);
      hide Valid;
      ResolveAll(Waiters(waitMap, nonce, txn), res);
      if nonce in waitMap {
        var rest := waitMap[nonce] - {txn};
        if rest == map[] {
          waitMap := waitMap - {nonce};
        } else {
          waitMap := waitMap[nonce := rest];
        }
      }
    }

    /** Lists every older transaction, remembering its nonce. */
    method Flatten(older: map<uint64, seq<Hash>>, lastNonce: uint64)
      returns (hashes: seq<Hash>, nonceOf: map<Hash, uint64>)
      requires NoEmpties(waitMap)
      requires OlderOf(waitMap, lastNonce, older)
      ensures SnapshotOf(waitMap, lastNonce, hashes, nonceOf)
      ensures forall h :: h in hashes ==> h in nonceOf
    {
      hide Collected, OlderOf, SnapshotOf, NoDuplicates, Exclusive, NoEmpties;
      hashes, nonceOf := [], map[];
      var nonces := Range(older);
      CollectedNothing(older);
      assert older.Keys - Elements(nonces[..0]) == older.Keys;
      for k := 0 to |nonces|
        invariant Collected(older, older.Keys - Elements(nonces[..k]), hashes, nonceOf)
        invariant Exclusive(older) ==> NoDuplicates(hashes)
      {
        var n := nonces[k];
        var txns := older[n];
        ghost var hashes0, nonceOf0 := hashes, nonceOf;
        for i := 0 to |txns|
          invariant hashes == hashes0 + txns[..i]
          invariant nonceOf.Keys == nonceOf0.Keys + set h | h in txns[..i]
          invariant forall h :: h in nonceOf ==> nonceOf[h] == if h in txns[..i] then n else nonceOf0[h]
        {
          hashes := hashes + [txns[i]];
          nonceOf := nonceOf[txns[i] := n];
        }
        assert txns[..|txns|] == txns;
        FirstTime(nonces, k);
        CollectedStep(older, older.Keys - Elements(nonces[..k]), n, hashes0, nonceOf0, nonceOf);
        assert older.Keys - Elements(nonces[..k]) - {n} == older.Keys - Elements(nonces[..k + 1]);
      }
      assert older.Keys - Elements(nonces[..|nonces|]) == {};
      SnapshotComplete(waitMap, lastNonce, older, hashes, nonceOf);
    }

    /** Answers the batch that starts at entry `start` of the snapshot, element by element:
        what the call left in element i is for the hash at `start + i`. */
    method AnswerBatch(hashes: seq<Hash>, nonceOf: map<Hash, uint64>, node: Node, k: nat, batch: seq<Hash>,
                       ghost base: State)
      requires Valid(St())
      requires BATCH_SIZE * k <= |hashes| && batch == BatchAt(hashes, k)
      requires forall h :: h in hashes ==> h in nonceOf
      requires St() == Processed(base, hashes, nonceOf, node, BATCH_SIZE * k)
      modifies this`waitMap, this`chans
      ensures Valid(St())
      ensures St() == Processed(base, hashes, nonceOf, node, BATCH_SIZE * k + |batch|)
    {
      hide *;
      var start := BATCH_SIZE * k;
      BatchFits(hashes, k);
      for i := 0 to |batch|
        invariant Valid(St())
        invariant St() == Processed(base, hashes, nonceOf, node, start + i)
      {
        var h := hashes[start + i];
        assert h in hashes;
        ProcessedNext(base, hashes, nonceOf, node, k, start + i);
        assert start + i - BATCH_SIZE * k == i;
        var answer := ResultOf(node.reply(k, batch, i));
        if answer.Some? {
          Notify(nonceOf[h], h, answer.value);
        }
      }
    }

    /** One receipt check. Besides the new state it tells which hashes it listed, which
        batches it sent to the node, and how many of those calls succeeded. */
    method Check(lastNonce: uint64, node: Node)
      returns (hashes: seq<Hash>, nonceOf: map<Hash, uint64>, issued: seq<seq<Hash>>, good: nat)
      requires Valid(St())
      modifies this`waitMap, this`chans
      ensures Valid(St())
      ensures SnapshotOf(old(waitMap), lastNonce, hashes, nonceOf)
      ensures BatchesOf(hashes, issued)
      ensures forall k :: 0 <= k < good ==> !node.fails(k)
      ensures (|issued| == good && |hashes| <= BATCH_SIZE * good) || (|issued| == good + 1 && node.fails(good))
      ensures St() == Processed(old(St()), hashes, nonceOf, node, Min(BATCH_SIZE * good, |hashes|))
    {
      hide Valid, SnapshotOf, OlderOf, BatchesOf, Processed, BatchAt, NoEmpties, ResultOf, Notified, Waiters, Wrap64;
      hashes, nonceOf, issued, good := [], map[], [], 0;
      var checkTxns := GetOlderTxns(lastNonce);
      if |checkTxns| == 0 {
        NothingOlder(waitMap, lastNonce, checkTxns);
        ProcessedNothing(St(), hashes, nonceOf, node);
        return;
      }
      ValidHasNoEmpties(St());
      hashes, nonceOf := Flatten(checkTxns, lastNonce);
      ghost var before := St();
      ProcessedNothing(before, hashes, nonceOf, node);
      var start := 0;
      while start < |hashes|
        invariant start == BATCH_SIZE * good && |issued| == good
        invariant Valid(St())
        invariant BatchesOf(hashes, issued)
        invariant forall k :: 0 <= k < good ==> !node.fails(k)
        invariant St() == Processed(before, hashes, nonceOf, node, Min(start, |hashes|))
        decreases |hashes| - start
      {
        var end := start + BATCH_SIZE;
        if end > |hashes| {
          end := |hashes|;
        }
        BatchEnds(hashes, good, start, end);
        BatchesStep(hashes, issued);
        var batch := hashes[start..end];
        issued := issued + [batch];
        if node.fails(good) {
          return;
        }
        AnswerBatch(hashes, nonceOf, node, good, batch, before);
        good := good + 1;
        start := start + BATCH_SIZE;
      }
    }

    /** Closes the monitor for the waiters of one nonce. */
    method DrainNonce(n: uint64, ghost before: State)
      requires Valid(before) && waitMap == before.waitMap && n in waitMap
      requires |chans| == |before.chans|
      requires forall c :: 0 <= c < |chans| && before.chans[c].nonce == n ==> chans[c] == before.chans[c]
      modifies this`chans
      ensures |chans| == |before.chans|
      ensures forall c :: 0 <= c < |chans| ==>
                chans[c] == if before.chans[c].nonce == n then Dismissed(before, c) else old(chans)[c]
    {
      hide Valid;
      var hashes := Range(waitMap[n]);
      for i := 0 to |hashes|
        invariant |chans| == |before.chans|
        invariant forall c :: 0 <= c < |chans| ==>
                    chans[c] == if before.chans[c].nonce == n && before.chans[c].hash in hashes[..i]
                                then Dismissed(before, c) else old(chans)[c]
      {
        var cs := waitMap[n][hashes[i]];
        assert cs == Waiters(waitMap, n, hashes[i]);
        ListOfItsOwn(before, n, hashes[i]);
        forall j | 0 <= j < |cs| ensures chans[cs[j]] == before.chans[cs[j]] {
          assert cs[j] in cs;
          assert hashes[i] !in hashes[..i];
        }
        ResolveAll(cs, MonitorClosed);
      }
    }

    /** The last act of the monitor: every waiter still listed is told that it closed. */
    method Drain()
      requires Valid(St())
      modifies this`chans
      ensures Drained(old(St()), St())
    {
      hide Valid, Dismissed;
      ghost var before := St();
      var nonces := Range(waitMap);
      for i := 0 to |nonces|
        invariant |chans| == |before.chans|
        invariant forall c :: 0 <= c < |chans| ==>
                    chans[c] == if before.chans[c].nonce in nonces[..i] then Dismissed(before, c)
                                else before.chans[c]
      {
        assert nonces[i] !in nonces[..i];
        DrainNonce(nonces[i], before);
      }
      UnlistedNotDismissed(before);
    }
  }
}
