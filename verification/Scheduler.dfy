/** The debounced scheduler of risk recomputations: calls of Schedule and Stop, timers that fire, and the
    callback's deletion of its map entry, which comes after the trigger and may come late.

    A timer that has fired cannot be stopped any more; its callback starts the trigger at once and deletes
    whatever entry its portfolio has when the trigger returns. */
module Scheduler {
  /** timers is the scheduler's map from portfolios to timers. armed are the timers that will still fire and
      running the callbacks that have not ended, each with its portfolio. */
  datatype State = State(timers: map<nat, nat>, armed: map<nat, nat>, running: map<nat, nat>, next: nat)

  const IDLE := State(map[], map[], map[], 0)

  datatype Action = Schedule(pid: nat) | Fire(timer: nat) | Finish(timer: nat) | Stop

  function Next(s: State, a: Action): State {
    match a
    case Schedule(pid) =>
      var armed := if pid in s.timers then s.armed - {s.timers[pid]} else s.armed;
      State(s.timers[pid := s.next], armed[s.next := pid], s.running, s.next + 1)
    case Fire(t) =>
      if t in s.armed then s.(armed := s.armed - {t}, running := s.running[t := s.armed[t]]) else s
    case Finish(t) =>
      if t in s.running then s.(timers := s.timers - {s.running[t]}, running := s.running - {t}) else s
    case Stop =>
      s.(timers := map[], armed := s.armed - s.timers.Values)
  }

  function Run(actions: seq<Action>): State {
    if actions == [] then IDLE else Next(Run(actions[..|actions| - 1]), actions[|actions| - 1])
  }

  /** Timer ids are fresh, and an armed timer in the map is in its portfolio's entry. */
  predicate Ok(s: State) {
    (forall p :: p in s.timers ==> s.timers[p] < s.next) &&
    (forall t :: t in s.armed ==> t < s.next) &&
    (forall p :: p in s.timers && s.timers[p] in s.armed ==> s.armed[s.timers[p]] == p)
  }

  lemma NextOk(s: State, a: Action)
    requires Ok(s)
    ensures Ok(Next(s, a))
  {
  }

  lemma {:induction false} RunOk(actions: seq<Action>)
    ensures Ok(Run(actions))
  {
    if actions != [] {
      RunOk(actions[..|actions| - 1]);
      NextOk(Run(actions[..|actions| - 1]), actions[|actions| - 1]);
    }
    hide Next;
  }

  // ----- no lost recompute -----

  predicate Armed(s: State, pid: nat) {
    exists t :: t in s.armed && s.armed[t] == pid
  }

  /** The action starts a recompute of the portfolio. */
  predicate Serves(s: State, a: Action, pid: nat) {
    a.Fire? && a.timer in s.armed && s.armed[a.timer] == pid
  }

  /** A recompute of the portfolio was asked for, and since then neither started nor called off. */
  predicate Waiting(actions: seq<Action>, pid: nat) {
    actions != [] &&
    var p, a := actions[..|actions| - 1], actions[|actions| - 1];
    a == Schedule(pid) || (Waiting(p, pid) && a != Stop && !Serves(Run(p), a, pid))
  }

  lemma StaysArmed(s: State, a: Action, pid: nat)
    requires Ok(s)
    requires a == Schedule(pid) || (Armed(s, pid) && a != Stop && !Serves(s, a, pid))
    ensures Armed(Next(s, a), pid)
  {
    if a == Schedule(pid) {
      assert s.next in Next(s, a).armed;
    } else {
      var t :| t in s.armed && s.armed[t] == pid;
      assert t in Next(s, a).armed;
    }
  }

  /** A portfolio with an unserved request always has a live timer. */
  lemma {:induction false} WaitingIsArmed(actions: seq<Action>, pid: nat)
    requires Waiting(actions, pid)
    ensures Armed(Run(actions), pid)
  {
    var p, a := actions[..|actions| - 1], actions[|actions| - 1];
    if a != Schedule(pid) {
      WaitingIsArmed(p, pid);
    }
    RunOk(p);
    StaysArmed(Run(p), a, pid);
    hide Next, Armed;
  }

  lemma {:induction false} UnservedWaits(actions: seq<Action>, i: nat, pid: nat)
    requires i < |actions| && actions[i] == Schedule(pid) && Stop !in actions[i + 1..]
    requires forall j :: i < j < |actions| ==> !Serves(Run(actions[..j]), actions[j], pid)
    ensures Waiting(actions, pid)
  {
    hide Serves, Run;
    if i < |actions| - 1 {
      var p, a := actions[..|actions| - 1], actions[|actions| - 1];
      assert actions[i + 1..] == p[i + 1..] + [a];
      forall j | i < j < |p|
        ensures !Serves(Run(p[..j]), p[j], pid)
      {
        assert p[..j] == actions[..j];
      }
      UnservedWaits(p, i, pid);
    }
  }

  /** No lost recompute. Over any interleaving of calls, firings and late deletions: once no timer of the
      portfolio is live, every request that was not followed by Stop was followed by the start of a
      recompute. */
  lemma NoLostRecompute(actions: seq<Action>, i: nat, pid: nat)
    requires i < |actions| && actions[i] == Schedule(pid) && Stop !in actions[i + 1..]
    requires !Armed(Run(actions), pid)
    ensures exists j :: i < j < |actions| && Serves(Run(actions[..j]), actions[j], pid)
  {
    hide Serves, Run, Armed;
    if forall j :: i < j < |actions| ==> !Serves(Run(actions[..j]), actions[j], pid) {
      UnservedWaits(actions, i, pid);
      WaitingIsArmed(actions, pid);
      assert false;
    }
  }

  // ----- what Stop leaves -----

  /** Every live timer is in the map. */
  predicate AllRegistered(s: State) {
    forall t :: t in s.armed ==> s.armed[t] in s.timers && s.timers[s.armed[t]] == t
  }

  /** A callback that ends after its portfolio was scheduled again removes the entry of the newer timer. */
  predicate LateDelete(s: State, a: Action) {
    a.Finish? && a.timer in s.running && s.running[a.timer] in s.timers && s.timers[s.running[a.timer]] in s.armed
  }

  /** Bursts coalesce: a portfolio has at most one live timer. */
  lemma OneTimerEach(s: State, t: nat, u: nat)
    requires AllRegistered(s) && t in s.armed && u in s.armed && s.armed[t] == s.armed[u]
    ensures t == u
  {
  }

  /** Only a late deletion takes a live timer out of the map. */
  lemma RegisteredUnlessLateDelete(s: State, a: Action)
    requires Ok(s) && AllRegistered(s)
    ensures AllRegistered(Next(s, a)) <==> !LateDelete(s, a)
  {
    if LateDelete(s, a) {
      var t := s.timers[s.running[a.timer]];
      assert t in Next(s, a).armed;
    }
    if a == Stop {
      forall t | t in s.armed
        ensures t in s.timers.Values
      {
        assert s.armed[t] in s.timers;
      }
    }
  }

  /** Stop cancels every outstanding recompute exactly when all live timers are in the map. */
  lemma StopIsQuietIff(s: State)
    requires Ok(s)
    ensures Next(s, Stop).armed == map[] <==> AllRegistered(s)
  {
    if AllRegistered(s) {
      forall t | t in s.armed
        ensures t in s.timers.Values
      {
        assert s.armed[t] in s.timers;
      }
    }
    if Next(s, Stop).armed == map[] {
      forall t | t in s.armed
        ensures s.armed[t] in s.timers && s.timers[s.armed[t]] == t
      {
        assert t !in Next(s, Stop).armed;
        var p :| p in s.timers && s.timers[p] == t;
      }
    }
  }

  predicate NoLateDelete(actions: seq<Action>) {
    forall k :: 0 <= k < |actions| ==> !LateDelete(Run(actions[..k]), actions[k])
  }

  lemma {:induction false} RunRegistered(actions: seq<Action>)
    requires NoLateDelete(actions)
    ensures AllRegistered(Run(actions))
  {
    if actions != [] {
      var p := actions[..|actions| - 1];
      forall k | 0 <= k < |p|
        ensures !LateDelete(Run(p[..k]), p[k])
      {
        assert p[..k] == actions[..k];
      }
      RunRegistered(p);
      RunOk(p);
      RegisteredUnlessLateDelete(Run(p), actions[|actions| - 1]);
      hide Next, AllRegistered, LateDelete;
    }
  }

  /** After Stop nothing starts any more, in every run without a late deletion. */
  lemma StopIsQuiet(actions: seq<Action>)
    requires NoLateDelete(actions)
    ensures Run(actions + [Stop]).armed == map[]
  {
    assert (actions + [Stop])[..|actions|] == actions;
    RunRegistered(actions);
    RunOk(actions);
    StopIsQuietIff(Run(actions));
    hide Next, AllRegistered, Ok;
  }

  const LATE: seq<Action> := [Schedule(7), Fire(0), Schedule(7), Finish(0), Stop]

  /** With one, a recompute starts after Stop although nobody has asked for it since. */
  lemma StopMissesOrphan()
    ensures Serves(Run(LATE), Fire(1), 7)
  {
    var s1 := Next(IDLE, Schedule(7));
    var s2 := Next(s1, Fire(0));
    var s3 := Next(s2, Schedule(7));
    var s4 := Next(s3, Finish(0));
    var s5 := Next(s4, Stop);
    assert s5.armed == map[1 := 7];
    hide Next;
    assert LATE[..4][..3] == LATE[..3] && LATE[..3][..2] == LATE[..2] && LATE[..2][..1] == LATE[..1] && LATE[..1][..0] == [];
    assert Run(LATE[..1]) == s1;
    assert Run(LATE[..2]) == s2;
    assert Run(LATE[..3]) == s3;
    assert Run(LATE[..4]) == s4;
  }

  // ----- the mutable scheduler -----

  class DebouncedRiskScheduler {
    var timers: map<nat, nat>
    var armed: map<nat, nat>
    var running: map<nat, nat>
    var next: nat

    constructor ()
      ensures Contents() == IDLE
    {
      timers, armed, running, next := map[], map[], map[], 0;
    }

    function Contents(): State
      reads this
    {
      State(timers, armed, running, next)
    }

    /** Resets or creates the portfolio's timer. */
    method Schedule(pid: nat)
      modifies this
      ensures Contents() == Next(old(Contents()), Action.Schedule(pid))
    {
      if pid in timers {
        StopTimer(timers[pid]);
      }
      timers := timers[pid := next];
      armed := armed[next := pid];
      next := next + 1;
    }

    /** A timer that has fired already, or was stopped before, is not affected. */
    method StopTimer(t: nat)
      modifies `armed
      ensures armed == old(armed) - {t}
    {
      armed := armed - {t};
    }

    /** A timer runs out, and its callback starts the trigger. */
    method TimerFires(t: nat) returns (trigger: bool, pid: nat)
      modifies `armed, `running
      ensures Contents() == Next(old(Contents()), Fire(t))
      ensures trigger ==> Serves(old(Contents()), Fire(t), pid)
      ensures !trigger ==> t !in old(armed)
    {
      if t !in armed {
        return false, 0;
      }
      pid := armed[t];
      armed, running := armed - {t}, running[t := pid];
      trigger := true;
    }

    /** The trigger has returned, and the callback deletes its portfolio's entry. */
    method CallbackEnds(t: nat)
      modifies `timers, `running
      ensures Contents() == Next(old(Contents()), Finish(t))
    {
      if t in running {
        timers, running := timers - {running[t]}, running - {t};
      }
    }

    /** Stops every timer in the map and forgets them. */
    method Stop()
      modifies `timers, `armed
      ensures Contents() == Next(old(Contents()), Action.Stop)
    {
      var todo := timers.Keys;
      ghost var stopped: set<nat> := {};
      while todo != {}
        invariant todo <= timers.Keys && timers == old(timers)
        invariant stopped == set p | p in timers.Keys - todo :: timers[p]
        invariant armed == old(armed) - stopped
        decreases |todo|
      {
        var p :| p in todo;
        StopTimer(timers[p]);
        stopped := stopped + {timers[p]};
        todo := todo - {p};
      }
      assert stopped == timers.Values;
      timers := map[];
    }
  }
}
