/** Theorems about every run of a partition: any interleaving of appends, fetches, flushes, dead-letters,
    snapshots, crashes and restarts. */
module Runs {
  import opened Positions
  import opened Events
  import opened EventTable
  import opened History
  import opened Accounting
  import opened Partition
  import opened Refinement

  // ----- replay refinement -----

  /** The logged events at or below the cursor, in order, except the missed ones. */
  function Covered(log: seq<Event>, cur: Cursor, missed: set<Event>): seq<Event> {
    if log == [] then []
    else if !After(cur, log[0]) && log[0] !in missed then [log[0]] + Covered(log[1..], cur, missed)
    else Covered(log[1..], cur, missed)
  }

  lemma {:induction false} CoveredFacts(log: seq<Event>, cur: Cursor, missed: set<Event>)
    requires Sorted(log)
    ensures Sorted(Covered(log, cur, missed))
    ensures forall e :: e in Covered(log, cur, missed) <==> e in log && !After(cur, e) && e !in missed
  {
    if log != [] {
      TailElements(log);
      CoveredFacts(log[1..], cur, missed);
      forall e | e in Covered(log[1..], cur, missed)
        ensures InOrder(log[0], e)
      {
        assert e in log[1..];
      }
    }
  }

  /** In every run the handled events are exactly the logged events up to the cursor, in order. */
  lemma {:induction false} HandledIsCovered(actions: seq<Action>)
    requires !Run(START, actions).torn
    ensures var w := Run(START, actions);
            Good(w) && EventsOf(w.history) == Covered(w.store.log, w.store.cursor, w.missed)
  {
    StartIsGood();
    RunKeeps(START, actions);
    var w := Run(START, actions);
    hide Run;
    CoveredFacts(w.store.log, w.store.cursor, w.missed);
    SortedUnique(EventsOf(w.history), Covered(w.store.log, w.store.cursor, w.missed));
  }

  /** The stale-age test never fires, as with a maximum event age of zero. */
  predicate NoStaleActions(actions: seq<Action>) {
    forall a :: a in actions && a.DeadLetterNext? ==> !a.stale
  }

  lemma NoneStaleSnoc(h: seq<Entry>, entries: seq<Entry>)
    requires NoneStale(h) && NoneStale(entries)
    ensures NoneStale(h + entries)
  {
  }

  /** What an action adds to the history. */
  function NewEntries(w: World, a: Action): seq<Entry> {
    if !Enabled(w, a) then []
    else
      match a
      case Rebuild(_) => [Restart]
      case Flush(outcome) => if outcome == Failed then [] else Handles(w.worker.pending)
      case DeadLetterNext(stale, outcome) => if outcome == Failed then [] else [Handled(w.worker.todo[0], stale)]
      case _ => []
  }

  lemma NextHistory(w: World, a: Action)
    ensures Next(w, a).history == w.history + NewEntries(w, a)
    ensures !(a.DeadLetterNext? && a.stale) ==> NoneStale(NewEntries(w, a))
    ensures !a.Rebuild? ==> forall e :: e in NewEntries(w, a) ==> e.Handled?
  {
    hide ApplyEvent, BatchApplied, DeadLettered, Loaded;
    assert w.history + [] == w.history;
  }

  lemma {:induction false} RunNoneStale(w: World, actions: seq<Action>)
    requires NoneStale(w.history) && NoStaleActions(actions)
    ensures NoneStale(Run(w, actions).history)
  {
    if actions != [] {
      var p, a := actions[..|actions| - 1], actions[|actions| - 1];
      RunNoneStale(w, p);
      assert a in actions;
      NextHistory(Run(w, p), a);
      hide Next;
      NoneStaleSnoc(Run(w, p).history, NewEntries(Run(w, p), a));
    }
  }

  /** The projection holds what a restart would load. */
  lemma RowsAreNextRestart(w: World)
    requires Good(w)
    ensures w.store.rows == FoldEntry(Replay(w.history), Restart).lots
    ensures w.store.dlq == Replay(w.history).dlq
  {
    hide Replay, HistoryOk, Accounted, SnapshotsOk, WorkerOk;
  }

  lemma {:induction false} HistoryRefinesFold(h: seq<Entry>, s: string)
    requires NoneStale(h) && EightDecimals(EventsOf(h))
    ensures var fold := Fold(EventsOf(h));
            Replay(h).dlq == fold.dlq && Drifted(FoldEntry(Replay(h), Restart), fold, Restarts(h) + 1, s)
  {
    RestartsKeepQuantities(h);
    WithoutRestartsFacts(h);
    ReplayIsFold(WithoutRestarts(h));
    RestartDrift(h, s);
    DriftRestart(Replay(h), Replay(WithoutRestarts(h)), Restarts(h), s);
    hide Replay, Drifted, FoldEntry, Fold, WithoutRestarts, EventsOf;
  }

  lemma {:induction false} StateRefinesFold(w: World, s: string)
    requires Good(w) && EventsOf(w.history) == Covered(w.store.log, w.store.cursor, w.missed)
    requires NoneStale(w.history) && EightDecimals(w.store.log)
    ensures var fold := Fold(EventsOf(w.history));
            var n, sold, r := BuyCount(fold.applied, s), QtySold(fold.applied, s), Restarts(w.history);
            w.store.dlq == fold.dlq &&
            Close(At(w.store.rows, s), At(fold.lots, s), AvgBound(r + 1, n), RealizedBound(r + 1, n, sold))
  {
    hide Good, Covered, Fold, Replay, AvgBound, RealizedBound, BuyCount, QtySold, Close, FoldEntry, EventsOf;
    assert Sorted(w.store.log) by {
      LogSorted(w);
    }
    CoveredFacts(w.store.log, w.store.cursor, w.missed);
    RowsAreNextRestart(w);
    assert EightDecimals(EventsOf(w.history));
    hide EightDecimals, NoneStale;
    HistoryRefinesFold(w.history, s);
  }

  lemma LogSorted(w: World)
    requires Good(w)
    ensures Sorted(w.store.log)
  {
    hide Sorted;
  }

  /** Replay refinement. Whatever the arrival order, the paging, the crashes and the restarts, the stored
      quantities and the dead-lettered events are those of one fold of ApplyTrade over the sorted log cut
      at the cursor, underflows skipped; and average cost and realized profit are within the drift bounds
      of that fold, r being the number of starts. */
  lemma {:induction false} ReplayRefinement(actions: seq<Action>, s: string)
    requires !Run(START, actions).torn && NoStaleActions(actions)
    requires EightDecimals(Run(START, actions).store.log)
    ensures var w := Run(START, actions);
            var fold := Fold(Covered(w.store.log, w.store.cursor, w.missed));
            var n, sold, r := BuyCount(fold.applied, s), QtySold(fold.applied, s), Restarts(w.history);
            w.store.dlq == fold.dlq &&
            Close(At(w.store.rows, s), At(fold.lots, s), AvgBound(r + 1, n), RealizedBound(r + 1, n, sold))
  {
    hide Run, Good, Covered, Fold, AvgBound, RealizedBound, BuyCount, QtySold, Close, EventsOf, NoStaleActions, EightDecimals;
    HandledIsCovered(actions);
    RunNoneStale(START, actions);
    StateRefinesFold(Run(START, actions), s);
  }

  /** With maximum age zero and no restart after the first handled event, nothing is lost to rounding: the
      rows are exactly the rounded lots of the fold. */
  lemma {:induction false} UninterruptedRefinement(actions: seq<Action>)
    requires !Run(START, actions).torn && NoStaleActions(actions) && Restarts(Run(START, actions).history) == 0
    ensures var w := Run(START, actions);
            var fold := Fold(Covered(w.store.log, w.store.cursor, w.missed));
            Replay(w.history) == fold && w.store.rows == Rounded(fold.lots) && w.store.dlq == fold.dlq
  {
    HandledIsCovered(actions);
    RunNoneStale(START, actions);
    ReplayIsFold(Run(START, actions).history);
    hide Run, Replay, Fold, Covered, Rounded, SnapshotsOk, HistoryOk, Accounted;
  }

  // ----- exactly-once disposition -----

  function Letters(dlq: seq<DeadLetter>): seq<Event> {
    if dlq == [] then [] else Letters(dlq[..|dlq| - 1]) + [dlq[|dlq| - 1].ev]
  }

  lemma LettersSnoc(dlq: seq<DeadLetter>, d: DeadLetter)
    ensures Letters(dlq + [d]) == Letters(dlq) + [d.ev]
  {
    assert (dlq + [d])[..|dlq|] == dlq;
  }

  /** Each handled event was recorded once, as applied or as dead-lettered. */
  ghost predicate Disposed(h: seq<Entry>) {
    multiset(Replay(h).applied) + multiset(Letters(Replay(h).dlq)) == multiset(EventsOf(h))
  }

  lemma DisposedAfterHandles(h: seq<Entry>, events: seq<Event>, lots: Lots)
    requires Disposed(h) && AppliedOnto(Replay(h), events, lots)
    ensures Disposed(h + Handles(events))
  {
    ReplayHandles(h, events);
    hide Replay, FoldAll, EventsOf, Handles, Letters;
  }

  lemma DisposedAfterLetter(h: seq<Entry>, ev: Event, stale: bool)
    requires Disposed(h) && (stale || ApplyEvent(Replay(h).lots, ev).Underflow?)
    ensures Disposed(h + [Handled(ev, stale)])
  {
    ReplaySnoc(h, Handled(ev, stale));
    LettersSnoc(Replay(h).dlq, DeadLetter(ev, if stale then EventTooStale else PositionUnderflow));
    hide Replay, EventsOf, Letters, ApplyEvent;
  }

  lemma {:induction false} NextDisposes(w: World, a: Action)
    requires Good(w) && Disposed(w.history)
    ensures Disposed(Next(w, a).history)
  {
    hide Disposed, HistoryOk, Accounted, SnapshotsOk, ProjectionOk, ApplyEvent;
    NextHistory(w, a);
    if Enabled(w, a) {
      var h := w.history;
      match a {
        case Rebuild(_) =>
          DisposedAfterRestart(h);
        case Flush(outcome) =>
          if outcome != Failed {
            DisposedAfterHandles(h, w.worker.pending, w.worker.lots);
          }
        case DeadLetterNext(stale, outcome) =>
          if outcome != Failed {
            assert w.worker.lots == Replay(h).lots;
            DisposedAfterLetter(h, w.worker.todo[0], stale);
          }
        case _ =>
          assert h + [] == h;
      }
    } else {
      assert w.history + [] == w.history;
    }
  }

  lemma DisposedAfterRestart(h: seq<Entry>)
    requires Disposed(h)
    ensures Disposed(h + [Restart])
  {
    ReplaySnoc(h, Restart);
    hide Replay, EventsOf, Letters, Rounded;
  }

  lemma {:induction false} RunDisposes(actions: seq<Action>)
    requires !Run(START, actions).torn
    ensures Disposed(Run(START, actions).history)
  {
    if actions == [] {
      hide FoldEvent;
    } else {
      var p := actions[..|actions| - 1];
      StartIsGood();
      RunKeeps(START, actions);
      TornForever(Run(START, p), actions[|actions| - 1]);
      RunKeeps(START, p);
      RunDisposes(p);
      hide Disposed, Good;
      NextDisposes(Run(START, p), actions[|actions| - 1]);
    }
  }

  lemma TornForever(w: World, a: Action)
    ensures w.torn ==> Next(w, a).torn
  {
    hide ApplyEvent;
  }

  lemma {:induction false} SortedCounts(events: seq<Event>, e: Event)
    requires Sorted(events)
    ensures multiset(events)[e] == if e in events then 1 else 0
  {
    if events != [] {
      TailElements(events);
      assert events == [events[0]] + events[1..];
      SortedCounts(events[1..], e);
    }
  }

  /** Exactly-once disposition. In every run, with the stale-age test firing arbitrarily and crashes placed
      anywhere, a logged event at or below the cursor that was not missed is either applied once or
      dead-lettered once, and any other event is neither. */
  lemma {:induction false} ExactlyOnce(actions: seq<Action>, e: Event)
    requires !Run(START, actions).torn && e in Run(START, actions).store.log
    ensures var w := Run(START, actions);
            var applied, dead := multiset(Replay(w.history).applied)[e], multiset(Letters(w.store.dlq))[e];
            applied + dead == if !After(w.store.cursor, e) && e !in w.missed then 1 else 0
  {
    HandledIsCovered(actions);
    RunDisposes(actions);
    var w := Run(START, actions);
    hide Run;
    RowsAreNextRestart(w);
    CoveredFacts(w.store.log, w.store.cursor, w.missed);
    SortedCounts(EventsOf(w.history), e);
    hide Good, Covered, Replay, Letters, EventsOf;
    assert (multiset(Replay(w.history).applied) + multiset(Letters(Replay(w.history).dlq)))[e]
        == multiset(EventsOf(w.history))[e];
  }

  /** The cursor never moves backwards. */
  lemma CursorMovesForward(w: World, a: Action)
    requires Good(w)
    ensures var c, d := w.store.cursor, Next(w, a).store.cursor;
            d == c || c.IsZero() || c.Before(d)
  {
    hide StoreOk, AppliedOnto, ApplyEvent, Sorted, BatchApplied, Loaded, Appended;
    if Enabled(w, a) {
      match a {
        case Flush(outcome) =>
          var wk := w.worker;
          assert wk.pending[|wk.pending| - 1] in wk.pending + wk.todo;
          BatchCursor(w.store, wk.pending, wk.lots);
        case DeadLetterNext(stale, outcome) =>
          assert w.worker.todo[0] in w.worker.pending + w.worker.todo;
        case Append(ev) =>
          AppendKeepsCursor(w.store, ev);
        case _ =>
      }
    }
  }

  lemma BatchCursor(st: Store, applied: seq<Event>, lots: Lots)
    requires applied != []
    ensures BatchApplied(st, applied, lots).cursor == CursorOf(applied[|applied| - 1])
  {
  }

  lemma AppendKeepsCursor(st: Store, ev: Event)
    ensures Appended(st, ev).cursor == st.cursor
  {
  }

  // ----- three-way agreement -----

  /** In every reachable state memory, table and snapshots agree: an idle worker's lots round to the
      projection rows; a snapshot holds the rounded lots of the events up to it and is never ahead of the
      cursor; and start-up loads the same lots and cursor whether it may read the snapshot or not. */
  lemma {:induction false} ThreeWayAgreement(actions: seq<Action>)
    requires !Run(START, actions).torn
    ensures var w := Run(START, actions);
            (w.worker.Up? && !w.worker.behind && w.worker.pending == [] ==> w.store.rows == Rounded(w.worker.lots)) &&
            (forall sn :: sn in w.store.snapshots ==>
               sn.lots == Rounded(Replay(UpTo(w.history, sn.asOf)).lots) && !w.store.cursor.Before(sn.asOf)) &&
            Loaded(w.store, true) == Loaded(w.store, false) &&
            Loaded(w.store, true).lots == w.store.rows
  {
    StartIsGood();
    RunKeeps(START, actions);
    var w := Run(START, actions);
    hide Run;
    LoadedIsRows(w, true);
    LoadedIsRows(w, false);
    LoadedAlike(w);
    SnapshotsBehindCursor(w);
    assert w.worker.Up? && w.worker.pending == [] ==> FoldAll(Replay(w.history), w.worker.pending) == Replay(w.history);
    hide Replay, UpTo, Rounded, Loaded, HistoryOk, Accounted;
  }

  lemma SnapshotsBehindCursor(w: World)
    requires Good(w)
    ensures forall sn :: sn in w.store.snapshots ==> !sn.asOf.IsZero() && !w.store.cursor.Before(sn.asOf)
    ensures w.store.snapshots != [] ==> !w.store.cursor.IsZero()
  {
    forall sn | sn in w.store.snapshots
      ensures !sn.asOf.IsZero() && !w.store.cursor.Before(sn.asOf) && !w.store.cursor.IsZero()
    {
      var e :| e in EventsOf(w.history) && CursorOf(e) == sn.asOf;
      HandledBeforeCursor(w.store, w.history, e);
    }
    assert w.store.snapshots != [] ==> w.store.snapshots[0] in w.store.snapshots;
  }

  lemma LoadedAlike(w: World)
    requires Good(w)
    ensures Loaded(w.store, true) == Loaded(w.store, false)
  {
    SnapshotsBehindCursor(w);
    LoadedIsRows(w, true);
    LoadedIsRows(w, false);
    hide Good;
  }
}
