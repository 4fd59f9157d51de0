/** How many handshake messages the limiter lets through over time, with its
    steps interleaved by any number of threads. */
module Admission {
  import opened Common
  import opened Timestamps
  import RL = RateLimiters

  /** `readings` holds the clock value each resetting thread read before it asked
      for the lock; `admitted` counts the messages that passed because the
      limiter was not under load; `nonces` lists the nonce counters drawn. */
  datatype Gate = Gate(limiter: RL.Limiter, clock: nat, readings: map<nat, nat>, admitted: nat, nonces: seq<u64>)

  datatype Event =
    | Tick(elapsed: nat)
    | ReadClock(thread: nat)   // first line of reset_count
    | LockAndReset(thread: nat)  // the rest of it
    | Message                  // a handshake message with a valid first MAC
    | DrawNonce                // a cookie reply is formatted

  function Step(g: Gate, e: Event): Gate {
    match e
    case Tick(d) => g.(clock := g.clock + d)
    case ReadClock(t) => g.(readings := g.readings[t := g.clock])
    case LockAndReset(t) =>
      if t in g.readings then g.(limiter := RL.ResetCount(g.limiter, g.readings[t]), readings := g.readings - {t})
      else g
    case Message =>
      var (r, loaded) := RL.CountOne(g.limiter);
      g.(limiter := r, admitted := if loaded then g.admitted else g.admitted + 1)
    case DrawNonce =>
      g.(limiter := g.limiter.(nonceCtr := (g.limiter.nonceCtr + 1) % U64), nonces := g.nonces + [g.limiter.nonceCtr])
  }

  function Run(g0: Gate, es: seq<Event>): Gate {
    if es == [] then g0 else Step(Run(g0, es[..|es| - 1]), es[|es| - 1])
  }

  /** Clock readings lie in the past, and so does the last reset. */
  ghost predicate Timely(g: Gate) {
    g.limiter.lastReset <= g.clock && forall t :: t in g.readings ==> g.readings[t] <= g.clock
  }

  /** After `k` resets since `g0`: each moved the reset time on by a second, and
      since each at most `limit` messages were let through. */
  ghost predicate Bounded(g0: Gate, g: Gate, k: nat, steps: nat) {
    && Timely(g)
    && g.limiter.limit == g0.limiter.limit
    && g0.limiter.lastReset + k * NANOS <= g.limiter.lastReset
    && g.limiter.count <= g0.limiter.count + steps
    && g.admitted <= g0.admitted + g0.limiter.limit * k + Min(g.limiter.count, g.limiter.limit)
  }

  function Min(a: nat, b: nat): nat {
    if a < b then a else b
  }

  lemma MessageBounded(g0: Gate, g: Gate, k: nat, steps: nat)
    requires Bounded(g0, g, k, steps) && g0.limiter.count + steps + 1 < U64
    ensures Bounded(g0, Step(g, Message), k, steps + 1)
  {
  }

  lemma ResetBounded(g0: Gate, g: Gate, k: nat, steps: nat, t: nat) returns (k': nat)
    requires Bounded(g0, g, k, steps)
    ensures Bounded(g0, Step(g, LockAndReset(t)), k', steps + 1)
  {
    k' := k;
    if t in g.readings && RL.SecsSince(g.readings[t], g.limiter.lastReset) >= RL.RESET_PERIOD {
      k' := k + 1;
      assert g0.limiter.limit * k' == g0.limiter.limit * k + g0.limiter.limit;
    }
  }

  lemma {:induction false} RunBounded(g0: Gate, es: seq<Event>) returns (k: nat)
    requires Timely(g0) && g0.limiter.count + |es| < U64
    ensures Bounded(g0, Run(g0, es), k, |es|)
  {
    if es == [] {
      k := 0;
    } else {
      var before, e := es[..|es| - 1], es[|es| - 1];
      k := RunBounded(g0, before);
      match e
      case Message => MessageBounded(g0, Run(g0, before), k, |before|);
      case LockAndReset(t) => k := ResetBounded(g0, Run(g0, before), k, |before|, t);
      case _ =>
    }
  }

  lemma ScaleUp(limit: nat, k: nat, n: nat, passed: int)
    requires k <= n && passed <= limit * k + limit
    ensures passed <= limit * (n + 1)
  {
    assert limit * k <= limit * n;
  }

  lemma WholeSeconds(start: nat, k: nat, clock: nat)
    requires start + k * NANOS <= clock
    ensures k <= (clock - start) / NANOS
  {
  }

  lemma BoundAfter(g0: Gate, g: Gate, k: nat, steps: nat)
    requires Bounded(g0, g, k, steps)
    ensures g.admitted - g0.admitted <= g0.limiter.limit * k + g0.limiter.limit
    ensures k <= (g.clock - g0.limiter.lastReset) / NANOS
  {
    WholeSeconds(g0.limiter.lastReset, k, g.clock);
  }

  /** The admission bound: over any run, at most `limit` messages for each whole
      second since the last reset, and `limit` more, pass without a cookie.  The
      clock may be read long before the lock is granted. */
  lemma AdmissionBound(g0: Gate, es: seq<Event>)
    requires Timely(g0) && g0.limiter.count + |es| < U64
    ensures WithinBound(g0, Run(g0, es))
  {
    var g := Run(g0, es);
    var k := RunBounded(g0, es);
    KeepsToBound(g0, g, k, |es|);
  }

  predicate WithinBound(g0: Gate, g: Gate) {
    g.admitted - g0.admitted <= g0.limiter.limit * ((g.clock - g0.limiter.lastReset) / NANOS + 1)
  }

  lemma KeepsToBound(g0: Gate, g: Gate, k: nat, steps: nat)
    requires Bounded(g0, g, k, steps)
    ensures WithinBound(g0, g)
  {
    BoundAfter(g0, g, k, steps);
    ScaleUp(g0.limiter.limit, k, (g.clock - g0.limiter.lastReset) / NANOS, g.admitted - g0.admitted);
  }

  lemma StepNonces(g: Gate, e: Event)
    requires g.limiter.nonceCtr + 1 < U64
    ensures var g' := Step(g, e);
            if e.DrawNonce? then
              g'.nonces == g.nonces + [g.limiter.nonceCtr] && g'.limiter.nonceCtr == g.limiter.nonceCtr + 1
            else g'.nonces == g.nonces && g'.limiter.nonceCtr == g.limiter.nonceCtr
  {
  }

  /** All nonce counters drawn are distinct, for as long as the counter lasts. */
  lemma {:induction false} NoncesDistinct(g0: Gate, es: seq<Event>)
    requires g0.nonces == [] && g0.limiter.nonceCtr + |es| < U64
    ensures var g := Run(g0, es);
            && g.limiter.nonceCtr == g0.limiter.nonceCtr + |g.nonces| && |g.nonces| <= |es|
            && (forall i :: 0 <= i < |g.nonces| ==> g.nonces[i] == g0.limiter.nonceCtr + i)
            && NoDuplicates(g.nonces)
  {
    if es != [] {
      NoncesDistinct(g0, es[..|es| - 1]);
      StepNonces(Run(g0, es[..|es| - 1]), es[|es| - 1]);
    }
  }
}
