/** What the workers are not given: how the operations on the database end, and what the clock says. Both are arbitrary
    sequences, so whatever holds of a method holds for every placement of failures and at any time. */
module Clock {
  import opened Events
  import opened Partition

  /** The n-th operation on the database ends as outcomes(n), and the n-th reading of the clock is clock(n). */
  class Surroundings {
    const outcomes: nat -> Commit
    const clock: nat -> int
    var ops: nat
    var readings: nat

    constructor (outcomes: nat -> Commit, clock: nat -> int)
      ensures this.outcomes == outcomes && this.clock == clock && ops == 0 && readings == 0
    {
      this.outcomes, this.clock, ops, readings := outcomes, clock, 0, 0;
    }

    /** One of the operations a to b was reported as failed. */
    ghost predicate Faulted(a: nat, b: nat) {
      exists n :: a <= n < b && outcomes(n) != Committed
    }

    method Attempt() returns (outcome: Commit)
      modifies `ops
      ensures ops == old(ops) + 1 && outcome == outcomes(old(ops))
    {
      outcome := outcomes(ops);
      ops := ops + 1;
    }

    method Now() returns (t: int)
      modifies `readings
      ensures readings == old(readings) + 1 && t == clock(old(readings))
    {
      t := clock(readings);
      readings := readings + 1;
    }
  }

  /** An event is too stale when it is older than the maximum age; a maximum of zero switches the test off. */
  method TooStale(ev: Event, maxEventAge: nat, now: int) returns (stale: bool)
    ensures stale <==> maxEventAge > 0 && now - ev.time > maxEventAge
  {
    if maxEventAge == 0 {
      return false;
    }
    stale := now - ev.time > maxEventAge;
  }

  /** By the n-th reading of the clock the event is too stale, or fresh. */
  predicate Found(env: Surroundings, maxEventAge: nat, ev: Event, stale: bool, n: nat) {
    stale <==> maxEventAge > 0 && env.clock(n) - ev.time > maxEventAge
  }

  /** So it was found by a reading between two of them. */
  ghost predicate JudgedOne(env: Surroundings, maxEventAge: nat, ev: Event, stale: bool, a: nat, b: nat) {
    exists n: nat :: a <= n < b && Found(env, maxEventAge, ev, stale, n)
  }

  /** So were the first of the events. */
  ghost predicate Judged(env: Surroundings, maxEventAge: nat, events: seq<Event>, stales: seq<bool>, a: nat, b: nat) {
    |stales| <= |events| && forall i :: 0 <= i < |stales| ==> JudgedOne(env, maxEventAge, events[i], stales[i], a, b)
  }

  lemma JudgedLater(env: Surroundings, maxEventAge: nat, events: seq<Event>, stales: seq<bool>, a: nat, b: nat, c: nat)
    requires Judged(env, maxEventAge, events, stales, a, b) && b <= c
    ensures Judged(env, maxEventAge, events, stales, a, c)
  {
    forall i | 0 <= i < |stales|
      ensures JudgedOne(env, maxEventAge, events[i], stales[i], a, c)
    {
      assert JudgedOne(env, maxEventAge, events[i], stales[i], a, b);
      var n: nat :| a <= n < b && Found(env, maxEventAge, events[i], stales[i], n);
    }
  }

  lemma JudgedNext(env: Surroundings, maxEventAge: nat, events: seq<Event>, stales: seq<bool>, a: nat, s: bool, n: nat, c: nat)
    requires Judged(env, maxEventAge, events, stales, a, n) && |stales| < |events| && a <= n < c
    requires s <==> maxEventAge > 0 && env.clock(n) - events[|stales|].time > maxEventAge
    ensures Judged(env, maxEventAge, events, stales + [s], a, c)
  {
    JudgedLater(env, maxEventAge, events, stales, a, n, c);
    assert Found(env, maxEventAge, events[|stales|], s, n);
    assert JudgedOne(env, maxEventAge, events[|stales|], s, a, c);
    hide JudgedOne;
  }

  lemma NothingJudged(env: Surroundings, maxEventAge: nat, events: seq<Event>, a: nat)
    ensures Judged(env, maxEventAge, events, [], a, a)
  {
  }
}
