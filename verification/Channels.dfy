/** Buffered Go channels. A channel remembers everything ever sent on it, so that a whole
    run can be judged: the buffer is what was sent and not yet taken. */
module Channels {

  datatype Chan<T> = Chan(cap: nat, sent: seq<T>, taken: nat, closed: bool)
  {
    /** A send returns at once, and does not panic. */
    predicate SendReady() {
      !closed && |sent| < taken + cap
    }

    function Send(v: T): Chan<T>
      requires SendReady()
    {
      this.(sent := sent + [v])
    }

    /** Closing a closed channel panics. */
    function Close(): Chan<T>
      requires !closed
    {
      this.(closed := true)
    }

    predicate Pristine() {
      cap == 1 && sent == [] && taken == 0 && !closed
    }

    /** One result was sent, then the channel was closed; the receiver may have taken it. */
    predicate Delivered() {
      cap == 1 && |sent| == 1 && taken <= 1 && closed
    }
  }

  function Make<T>(cap: nat): Chan<T> {
    Chan(cap, [], 0, false)
  }

  /** What `c <- v; close(c)` leaves behind. */
  function SentAndClosed<T>(c: Chan<T>, v: T): Chan<T> {
    c.(sent := c.sent + [v], closed := true)
  }

  /** A receive takes the oldest buffered value; on an empty buffer nothing is taken. */
  function Taken<T>(c: Chan<T>): Chan<T> {
    if c.taken < |c.sent| then c.(taken := c.taken + 1) else c
  }

  // ---------------------------------------------------------------- a buffer is a queue with room

  /** A channel made with `cap` slots on which `vs` were sent, `taken` of them received. */
  function Used<T>(cap: nat, vs: seq<T>, taken: nat): Chan<T>
    requires taken <= |vs| <= taken + cap
  {
    Chan(cap, vs, taken, false)
  }

  /** Sends are kept in order and possible exactly while there is a free slot; receives take
      the oldest value and free its slot; a closed channel takes nothing more. */
  lemma BufferIsQueue<T>(cap: nat, vs: seq<T>, taken: nat, v: T)
    requires taken <= |vs| <= taken + cap
    ensures Make<T>(cap) == Used(cap, [], 0)
    ensures Used(cap, vs, taken).SendReady() <==> |vs| - taken < cap
    ensures |vs| - taken < cap ==> Used(cap, vs, taken).Send(v) == Used(cap, vs + [v], taken)
    ensures taken < |vs| ==> Taken(Used(cap, vs, taken)) == Used(cap, vs, taken + 1)
    ensures taken == |vs| ==> Taken(Used(cap, vs, taken)) == Used(cap, vs, taken)
    ensures !Used(cap, vs, taken).Close().SendReady()
    ensures |vs| - taken < cap ==> SentAndClosed(Used(cap, vs, taken), v) == Used(cap, vs, taken).Send(v).Close()
  {
  }
}
