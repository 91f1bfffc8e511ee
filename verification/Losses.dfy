/** Exactly which appended events a run loses.

    An append behind the cursor is unseen until the worker looks at the table again, by a fetch or by starting
    up. A step loses the event it appends at or below the cursor, and every unseen event it moves the cursor
    past; nothing else is ever lost. */
module Losses {
  import opened Events
  import opened EventTable
  import opened History
  import opened Watermark
  import opened Partition
  import opened Refinement
  import opened Runs
  import opened Arrival

  predicate Looks(w: World, a: Action) {
    (a.Fetch? || a.Rebuild?) && Enabled(w, a)
  }

  predicate StoredUnseen(w: World, a: Action) {
    a.Append? && Stores(w, a.ev) && After(w.store.cursor, a.ev)
  }

  predicate StoredLate(w: World, a: Action) {
    a.Append? && Stores(w, a.ev) && !After(w.store.cursor, a.ev)
  }

  function NextUnseen(w: World, a: Action, unseen: set<Event>): set<Event> {
    if Looks(w, a) then {} else if StoredUnseen(w, a) then unseen + {a.ev} else unseen
  }

  /** The events stored behind the cursor since the worker last looked at the table. */
  function Unseen(actions: seq<Action>): set<Event> {
    if actions == [] then {}
    else
      var p, a := actions[..|actions| - 1], actions[|actions| - 1];
      NextUnseen(Run(START, p), a, Unseen(p))
  }

  /** The step moves the cursor past the event. */
  predicate Passes(w: World, a: Action, e: Event) {
    After(w.store.cursor, e) && !After(Next(w, a).store.cursor, e)
  }

  /** What a step loses. */
  function LostBy(w: World, a: Action, unseen: set<Event>): set<Event> {
    (if StoredLate(w, a) then {a.ev} else {}) + (set e | e in unseen && Passes(w, a, e))
  }

  // ----- what the page in flight leaves unseen -----

  predicate BehindAll(page: seq<Event>, e: Event) {
    forall x :: x in page ==> InOrder(x, e)
  }

  /** A logged event behind the cursor is in the page, or unseen, or behind the whole page. */
  predicate Sees(log: seq<Event>, cur: Cursor, page: seq<Event>, unseen: set<Event>) {
    forall e :: e in log && After(cur, e) ==> e in page || e in unseen || BehindAll(page, e)
  }

  /** Unseen events are logged, and none of them is in the page. */
  predicate UnseenOk(log: seq<Event>, page: seq<Event>, unseen: set<Event>) {
    (forall e :: e in unseen ==> e in log) && forall e :: e in page ==> e !in unseen
  }

  function Page(wk: Worker): (page: seq<Event>)
    ensures wk.Up? && wk.pending == [] ==> page == wk.todo
  {
    if wk.Up? then
      assert wk.pending == [] ==> wk.pending + wk.todo == wk.todo;
      wk.pending + wk.todo
    else []
  }

  predicate PageSees(w: World, unseen: set<Event>) {
    UnseenOk(w.store.log, Page(w.worker), unseen) &&
    (w.worker.Up? && !w.worker.behind ==> Sees(w.store.log, w.store.cursor, Page(w.worker), unseen))
  }

  /** What the invariant of module Refinement says of a page. */
  predicate PageGood(st: Store, page: seq<Event>) {
    Sorted(page) && forall e :: e in page ==> e in st.log && After(st.cursor, e)
  }

  lemma GoodPage(w: World)
    requires Good(w)
    ensures Sorted(w.store.log) && PageGood(w.store, Page(w.worker))
    ensures w.worker.Up? && w.worker.behind ==> Page(w.worker) == []
    ensures w.worker.Up? && !w.worker.behind ==> w.worker.cur == w.store.cursor
  {
    hide AppliedOnto, HistoryOk, Accounted, ProjectionOk, SnapshotsOk, After;
  }

  // ----- one step -----

  /** A commit of the first part of the page loses exactly the unseen events it passes. */
  lemma CommitLoses(st: Store, batch: seq<Event>, rest: seq<Event>, unseen: set<Event>)
    requires batch != [] && PageGood(st, batch + rest)
    requires UnseenOk(st.log, batch + rest, unseen) && Sees(st.log, st.cursor, batch + rest, unseen)
    ensures var next := CursorOf(batch[|batch| - 1]);
            Skipped(st.log, st.cursor, next, batch) ==
              (set e | e in unseen && After(st.cursor, e) && !After(next, e)) &&
            UnseenOk(st.log, rest, unseen) && Sees(st.log, next, rest, unseen)
  {
    var page, last := batch + rest, batch[|batch| - 1];
    var next := CursorOf(last);
    SplitSorted(batch, rest);
    RestBehindBatch(batch, rest);
    CursorPassesBatch(batch);
    assert last in page;
    hide Sorted;
    forall e | e in st.log && After(next, e)
      ensures e in rest || e in unseen || BehindAll(rest, e)
    {
      AfterMonotone(st.cursor, last, e);
    }
    forall e | e in Skipped(st.log, st.cursor, next, batch)
      ensures e in unseen
    {
    }
  }

  lemma AppendLoses(w: World, ev: Event, unseen: set<Event>)
    requires Good(w) && PageSees(w, unseen)
    ensures var a := Append(ev);
            PageSees(Next(w, a), NextUnseen(w, a, unseen)) && Next(w, a).missed == w.missed + LostBy(w, a, unseen)
  {
    hide Good, Sorted, After;
    GoodPage(w);
    if Stores(w, ev) {
      StoresMeansInsert(w, ev);
      assert ev !in w.store.log by {
        assert Clash(ev, ev);
      }
      AppendedLog(w.store.log, ev);
      hide Insert;
    } else {
      assert Next(w, Append(ev)) == w;
    }
  }

  lemma {:induction false} AppendedLog(log: seq<Event>, ev: Event)
    ensures forall e :: e in Insert(log, ev) <==> e == ev || e in log
  {
    if log != [] && !InOrder(ev, log[0]) {
      assert log == [log[0]] + log[1..];
      AppendedLog(log[1..], ev);
    }
  }

  lemma FetchedSees(log: seq<Event>, cur: Cursor, cutoff: int, watermark: int)
    requires Sorted(log)
    ensures Sees(log, cur, EligibleBatch(Take(Behind(log, cur), PAGE), cutoff, watermark, PAGE), {})
  {
    hide EligibleBatch, Take, After;
    var all := Behind(log, cur);
    EligibleIsNext(all, cutoff, watermark);
    var page := EligibleBatch(Take(all, PAGE), cutoff, watermark, PAGE);
    BehindFacts(log, cur);
    hide Behind;
    forall e | e in log && After(cur, e)
      ensures e in page || BehindAll(page, e)
    {
      var i :| 0 <= i < |all| && all[i] == e;
      if i < |page| {
        assert page[i] == e;
      } else {
        PrefixInFront(all, page, i);
      }
    }
  }

  lemma PrefixInFront(all: seq<Event>, page: seq<Event>, i: nat)
    requires Sorted(all) && page <= all && |page| <= i < |all|
    ensures BehindAll(page, all[i])
  {
    forall x | x in page
      ensures InOrder(x, all[i])
    {
      var j :| 0 <= j < |page| && page[j] == x;
      assert all[j] == x;
    }
  }

  lemma FetchLoses(w: World, cutoff: int, watermark: int, unseen: set<Event>)
    requires Good(w) && PageSees(w, unseen) && !Next(w, Fetch(cutoff, watermark)).torn
    ensures var a := Fetch(cutoff, watermark);
            PageSees(Next(w, a), NextUnseen(w, a, unseen)) && Next(w, a).missed == w.missed + LostBy(w, a, unseen)
  {
    hide Good, EligibleBatch, Take, Behind, Sorted, Sees, After, PageGood, ApplyEvent;
    GoodPage(w);
    if Enabled(w, Fetch(cutoff, watermark)) {
      FetchedSees(w.store.log, w.store.cursor, cutoff, watermark);
    }
  }

  lemma RebuildLoses(w: World, readable: bool, unseen: set<Event>)
    requires Good(w) && PageSees(w, unseen)
    ensures var a := Rebuild(readable);
            PageSees(Next(w, a), NextUnseen(w, a, unseen)) && Next(w, a).missed == w.missed + LostBy(w, a, unseen)
  {
    hide Good, Loaded, After, ApplyEvent;
    LoadedIsRows(w, readable);
  }

  lemma FlushLoses(w: World, outcome: Commit, unseen: set<Event>)
    requires Good(w) && PageSees(w, unseen) && Enabled(w, Flush(outcome))
    ensures var a := Flush(outcome);
            PageSees(Next(w, a), NextUnseen(w, a, unseen)) && Next(w, a).missed == w.missed + LostBy(w, a, unseen)
  {
    GoodPage(w);
    var wk := w.worker;
    assert !wk.behind;
    hide Good, PageGood, UnseenOk, Sees, After, WriteRows, Handles, Skipped, Touched;
    CommitLoses(w.store, wk.pending, wk.todo, unseen);
    NoPage(w.store.log, w.store.cursor, unseen, wk.pending + wk.todo);
    assert [] + wk.todo == wk.todo;
  }

  /** With no page nothing is asked of it. */
  lemma NoPage(log: seq<Event>, cur: Cursor, unseen: set<Event>, page: seq<Event>)
    requires UnseenOk(log, page, unseen)
    ensures UnseenOk(log, [], unseen) && Sees(log, cur, [], unseen)
  {
  }

  lemma DeadLetterLoses(w: World, stale: bool, outcome: Commit, unseen: set<Event>)
    requires Good(w) && PageSees(w, unseen) && Enabled(w, DeadLetterNext(stale, outcome))
    ensures var a := DeadLetterNext(stale, outcome);
            PageSees(Next(w, a), NextUnseen(w, a, unseen)) && Next(w, a).missed == w.missed + LostBy(w, a, unseen)
  {
    hide Good, PageGood, UnseenOk, Sees, After, ApplyEvent, Skipped;
    GoodPage(w);
    var wk := w.worker;
    assert !wk.behind;
    var ev, rest := wk.todo[0], wk.todo[1..];
    assert Page(wk) == [ev] + rest;
    hide Page;
    CommitLoses(w.store, [ev], rest, unseen);
    LetterWorld(w, stale, outcome);
    hide DeadLetteredNext;
    var r := DeadLetteredNext(w, stale, outcome);
    NoPage(r.store.log, r.store.cursor, unseen, [ev] + rest);
  }

  lemma LetterWorld(w: World, stale: bool, outcome: Commit)
    requires w.worker.Up? && w.worker.pending == [] && w.worker.todo != []
    ensures var wk, ev, r := w.worker, w.worker.todo[0], DeadLetteredNext(w, stale, outcome);
            r.store.log == w.store.log &&
            r.store.cursor == (if outcome == Failed then w.store.cursor else CursorOf(ev)) &&
            Page(r.worker) == (if outcome == Committed then wk.todo[1..] else []) &&
            (r.worker.Up? && !r.worker.behind ==> outcome != Unacknowledged && !wk.behind) &&
            r.missed == w.missed +
              if outcome == Failed then {} else Skipped(w.store.log, w.store.cursor, CursorOf(ev), [ev])
  {
    hide Skipped, ApplyEvent;
  }

  lemma ApplyLoses(w: World, unseen: set<Event>)
    requires PageSees(w, unseen) && Enabled(w, ApplyNext)
    ensures PageSees(Next(w, ApplyNext), unseen) && Next(w, ApplyNext).missed == w.missed + LostBy(w, ApplyNext, unseen)
  {
    hide ApplyEvent, UnseenOk, Sees, After;
    var wk := w.worker;
    assert wk.pending + [wk.todo[0]] + wk.todo[1..] == wk.pending + wk.todo;
  }

  lemma QuietLoses(w: World, a: Action, unseen: set<Event>)
    requires PageSees(w, unseen) && Enabled(w, a) && (a == Refuse || a == Checkpoint || a == Crash)
    ensures PageSees(Next(w, a), unseen) && Next(w, a).missed == w.missed + LostBy(w, a, unseen)
  {
    hide ApplyEvent, UnseenOk, Sees, After;
    NoPage(w.store.log, w.store.cursor, unseen, Page(w.worker));
  }

  /** One step of a run that is not torn misses exactly what it loses. */
  lemma StepLoses(w: World, a: Action, unseen: set<Event>)
    requires Good(w) && PageSees(w, unseen) && !Next(w, a).torn
    ensures PageSees(Next(w, a), NextUnseen(w, a, unseen)) && Next(w, a).missed == w.missed + LostBy(w, a, unseen)
  {
    hide Good, PageSees, ApplyEvent, After, Stores, Flushed, DeadLetteredNext, Loaded, Appended, EligibleBatch;
    if a.Append? {
      AppendLoses(w, a.ev, unseen);
    } else if Enabled(w, a) {
      match a {
        case Append(_) =>
        case Rebuild(readable) => RebuildLoses(w, readable, unseen);
        case Fetch(cutoff, watermark) => FetchLoses(w, cutoff, watermark, unseen);
        case ApplyNext => ApplyLoses(w, unseen);
        case Flush(outcome) => FlushLoses(w, outcome, unseen);
        case DeadLetterNext(stale, outcome) => DeadLetterLoses(w, stale, outcome, unseen);
        case Refuse => QuietLoses(w, a, unseen);
        case Checkpoint => QuietLoses(w, a, unseen);
        case Crash => QuietLoses(w, a, unseen);
      }
    } else {
      assert Next(w, a) == w;
    }
  }

  // ----- runs -----

  lemma {:induction false} RunSees(actions: seq<Action>)
    requires !Run(START, actions).torn
    ensures Good(Run(START, actions)) && PageSees(Run(START, actions), Unseen(actions))
  {
    hide Good, Next, After, Stores;
    StartIsGood();
    RunKeeps(START, actions);
    if actions != [] {
      hide PageSees, NextUnseen;
      var p, a := actions[..|actions| - 1], actions[|actions| - 1];
      TornForever(Run(START, p), a);
      RunSees(p);
      StepLoses(Run(START, p), a, Unseen(p));
    }
  }

  /** What the k-th action of a run loses. */
  function LostAt(actions: seq<Action>, k: nat): set<Event>
    requires k < |actions|
  {
    LostBy(Run(START, actions[..k]), actions[k], Unseen(actions[..k]))
  }

  /** A run misses exactly the events its steps lose. */
  lemma {:induction false} MissedIsLost(actions: seq<Action>, e: Event)
    requires !Run(START, actions).torn
    ensures e in Run(START, actions).missed <==> exists k :: 0 <= k < |actions| && e in LostAt(actions, k)
  {
    hide Next, LostBy, NextUnseen;
    if actions != [] {
      var p, a := actions[..|actions| - 1], actions[|actions| - 1];
      TornForever(Run(START, p), a);
      MissedIsLost(p, e);
      RunSees(p);
      hide Good, PageSees;
      StepLoses(Run(START, p), a, Unseen(p));
      assert LostAt(actions, |p|) == LostBy(Run(START, p), a, Unseen(p));
      forall k: nat | k < |p|
        ensures LostAt(actions, k) == LostAt(p, k)
      {
        assert p[..k] == actions[..k];
      }
    }
  }

  /** Exactly when nothing is lost: in a run that is not torn nothing is missed if and only if every stored
      append lands behind the cursor of its moment, and no later step moves the cursor past it before the
      worker has looked at the table again. */
  lemma NothingMissedIff(actions: seq<Action>)
    requires !Run(START, actions).torn
    ensures Run(START, actions).missed == {} <==>
            forall k :: 0 <= k < |actions| ==>
              var w := Run(START, actions[..k]);
              !StoredLate(w, actions[k]) && forall e :: e in Unseen(actions[..k]) ==> !Passes(w, actions[k], e)
  {
    hide Run, Unseen, StoredLate, Passes;
    forall e
      ensures e in Run(START, actions).missed <==> exists k :: 0 <= k < |actions| && e in LostAt(actions, k)
    {
      MissedIsLost(actions, e);
    }
    if Run(START, actions).missed == {} {
      forall k | 0 <= k < |actions|
        ensures LostAt(actions, k) == {}
      {
      }
      forall k | 0 <= k < |actions|
        ensures !StoredLate(Run(START, actions[..k]), actions[k])
        ensures forall e :: e in Unseen(actions[..k]) ==> !Passes(Run(START, actions[..k]), actions[k], e)
      {
        assert LostAt(actions, k) == {};
        NothingLostBy(Run(START, actions[..k]), actions[k], Unseen(actions[..k]));
      }
    }
    if forall k :: 0 <= k < |actions| ==>
        var w := Run(START, actions[..k]);
        !StoredLate(w, actions[k]) && forall e :: e in Unseen(actions[..k]) ==> !Passes(w, actions[k], e)
    {
      forall k | 0 <= k < |actions|
        ensures LostAt(actions, k) == {}
      {
        NothingLostBy(Run(START, actions[..k]), actions[k], Unseen(actions[..k]));
      }
    }
  }

  lemma NothingLostBy(w: World, a: Action, unseen: set<Event>)
    ensures LostBy(w, a, unseen) == {} <==> !StoredLate(w, a) && forall e :: e in unseen ==> !Passes(w, a, e)
  {
    hide Passes, StoredLate;
    if LostBy(w, a, unseen) == {} {
      forall e | e in unseen
        ensures !Passes(w, a, e)
      {
        assert e !in LostBy(w, a, unseen);
      }
    }
  }

  /** The unseen events, said directly: those stored behind the cursor since which nobody has looked. */
  lemma {:induction false} UnseenMeans(actions: seq<Action>, e: Event)
    ensures e in Unseen(actions) <==>
            exists k :: 0 <= k < |actions| && actions[k] == Append(e) && StoredUnseen(Run(START, actions[..k]), actions[k]) &&
              forall j :: k < j < |actions| ==> !Looks(Run(START, actions[..j]), actions[j])
  {
    hide Run, StoredUnseen, Looks;
    if actions != [] {
      var n := |actions| - 1;
      var p, a := actions[..n], actions[n];
      UnseenMeans(p, e);
      assert forall k :: 0 <= k <= n ==> p[..k] == actions[..k];
      if Looks(Run(START, p), a) {
        LooksIsNoAppend(Run(START, p), a);
      } else if StoredUnseen(Run(START, p), a) && a == Append(e) {
        assert actions[n] == Append(e) && StoredUnseen(Run(START, actions[..n]), actions[n]);
      } else {
        if e in Unseen(p) {
          var k :| 0 <= k < |p| && p[k] == Append(e) && StoredUnseen(Run(START, p[..k]), p[k]) &&
            forall j :: k < j < |p| ==> !Looks(Run(START, p[..j]), p[j]);
          assert actions[k] == Append(e) && StoredUnseen(Run(START, actions[..k]), actions[k]);
          assert forall j :: k < j < |actions| ==> !Looks(Run(START, actions[..j]), actions[j]);
        }
        StoredIsAppend(Run(START, p), a);
      }
    }
  }

  lemma LooksIsNoAppend(w: World, a: Action)
    ensures Looks(w, a) ==> !a.Append?
  {
    hide Enabled;
  }

  lemma StoredIsAppend(w: World, a: Action)
    ensures StoredUnseen(w, a) ==> a == Append(a.ev)
  {
    hide Stores, After;
  }

  /** A single arrival while a batch is pending: the commit of the batch loses it exactly when it lands in
      front of the batch's last event. */
  lemma ArrivalDuringBatchIff(w: World, ev: Event)
    requires Good(w) && w.worker.Up? && w.worker.pending != [] && Stores(w, ev) && After(w.store.cursor, ev)
    ensures var r := Next(Next(w, Append(ev)), Flush(Committed));
            ev in r.missed <==> InOrder(ev, w.worker.pending[|w.worker.pending| - 1])
  {
    GoodPage(w);
    NotMissedYet(w, ev);
    var wk := w.worker;
    var last := wk.pending[|wk.pending| - 1];
    assert last in wk.pending + wk.todo;
    assert !Clash(last, ev);
    var x := Next(w, Append(ev));
    StoresMeansInsert(w, ev);
    AppendedLog(w.store.log, ev);
    hide Good, Sorted, Insert, WriteRows, Handles, Stores;
    assert ev !in wk.pending by {
      assert ev in wk.pending ==> ev in wk.pending + wk.todo;
      NotLogged(w, ev);
    }
    assert x.missed == w.missed && x.store.log == Insert(w.store.log, ev) && x.store.cursor == w.store.cursor && x.worker == wk;
    assert Next(x, Flush(Committed)).missed == x.missed + Skipped(x.store.log, x.store.cursor, CursorOf(last), wk.pending);
  }

  lemma NotLogged(w: World, ev: Event)
    requires Stores(w, ev)
    ensures ev !in w.store.log
  {
    assert Clash(ev, ev);
  }

  lemma NotMissedYet(w: World, ev: Event)
    requires Good(w) && Stores(w, ev)
    ensures ev !in w.missed
  {
    NotLogged(w, ev);
    hide Stores, Sorted, HistoryOk, ProjectionOk, SnapshotsOk, WorkerOk;
  }
}
