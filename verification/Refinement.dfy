/** Every reachable state of a partition refines the fold of its history.

    The invariant Good holds in every state of every run in which no worker went on fetching after one of
    its transactions was reported as failed; each action is shown to keep it. */
module Refinement {
  import opened Decimals
  import opened Positions
  import opened Events
  import opened EventTable
  import opened History
  import opened Watermark
  import opened Partition

  // ----- folding a batch -----

  function FoldAll(l: Ledger, events: seq<Event>): Ledger {
    if events == [] then l else FoldEvent(FoldAll(l, events[..|events| - 1]), events[|events| - 1])
  }

  lemma FoldAllSnoc(l: Ledger, events: seq<Event>, ev: Event)
    ensures FoldAll(l, events + [ev]) == FoldEvent(FoldAll(l, events), ev)
  {
    assert (events + [ev])[..|events|] == events;
  }

  lemma HandlesSnoc(events: seq<Event>, ev: Event)
    ensures Handles(events + [ev]) == Handles(events) + [Handled(ev, false)]
  {
  }

  lemma {:induction false} ReplayHandles(h: seq<Entry>, events: seq<Event>)
    ensures Replay(h + Handles(events)) == FoldAll(Replay(h), events)
    ensures EventsOf(h + Handles(events)) == EventsOf(h) + events
    ensures WithoutRestarts(h + Handles(events)) == WithoutRestarts(h) + Handles(events)
  {
    hide FoldEvent;
    if events == [] {
      assert h + Handles(events) == h;
    } else {
      var p, ev := events[..|events| - 1], events[|events| - 1];
      ReplayHandles(h, p);
      HandlesSnoc(p, ev);
      assert events == p + [ev];
      hide Handles;
      ReplaySnoc(h + Handles(p), Handled(ev, false));
      hide Replay, EventsOf, WithoutRestarts;
      assert h + Handles(events) == (h + Handles(p)) + [Handled(ev, false)];
    }
  }

  /** The pending events have all been applied on top of the ledger. */
  predicate AppliedOnto(l: Ledger, events: seq<Event>, lots: Lots) {
    FoldAll(l, events) == Ledger(lots, l.applied + events, l.dlq)
  }

  lemma AppliedOntoSnoc(l: Ledger, events: seq<Event>, lots: Lots, ev: Event)
    requires AppliedOnto(l, events, lots) && ApplyEvent(lots, ev).Applied?
    ensures AppliedOnto(l, events + [ev], ApplyEvent(lots, ev).lots)
  {
    FoldAllSnoc(l, events, ev);
    hide ApplyEvent;
    assert l.applied + events + [ev] == l.applied + (events + [ev]);
  }

  /** Every fold only grows its two records, so a batch that was applied in full was applied at every
      step. */
  lemma {:induction false} FoldAllGrows(l: Ledger, events: seq<Event>)
    ensures |FoldAll(l, events).applied| <= |l.applied| + |events|
    ensures |FoldAll(l, events).dlq| >= |l.dlq|
  {
    hide ApplyEvent;
    if events != [] {
      FoldAllGrows(l, events[..|events| - 1]);
    }
  }

  lemma AppliedOntoPrefix(l: Ledger, events: seq<Event>, lots: Lots)
    requires events != [] && AppliedOnto(l, events, lots)
    ensures var p, ev := events[..|events| - 1], events[|events| - 1];
            var before := FoldAll(l, p).lots;
            AppliedOnto(l, p, before) && ApplyEvent(before, ev) == Applied(lots)
  {
    var p, ev := events[..|events| - 1], events[|events| - 1];
    FoldAllGrows(l, p);
    hide ApplyEvent;
    var x := FoldAll(l, p);
    assert FoldAll(l, events) == FoldEvent(x, ev);
    assert |(l.applied + events)| == |l.applied| + |p| + 1;
    assert x.applied == (x.applied + [ev])[..|x.applied|];
    assert (l.applied + events)[..|l.applied| + |p|] == l.applied + p;
  }

  /** A worker whose lots are the ledger's has nothing pending. */
  lemma NothingPending(l: Ledger, lots: Lots)
    requires l.lots == lots
    ensures AppliedOnto(l, [], lots)
  {
    assert l.applied + [] == l.applied;
  }

  // ----- what a flush writes -----

  /** Lots that a trade has just touched: never a zero lot, and no cost on a flat one. */
  predicate Tidy(lots: Lots, s: string) {
    s in lots ==> HasRow(lots[s]) && (lots[s].qty == 0.0 ==> lots[s].avg == 0.0)
  }

  lemma ApplyEventEffect(lots: Lots, ev: Event)
    requires ApplyEvent(lots, ev).Applied?
    ensures var r := ApplyEvent(lots, ev).lots;
            (forall s :: s in Touched([ev]) ==> Tidy(r, s)) &&
            (forall s :: s !in Touched([ev]) ==> (s in r <==> s in lots) && (s in lots ==> r[s] == lots[s]))
  {
    hide Div16, Worth;
    assert [ev][0] == ev;
    assert ev in [ev];
  }

  lemma TouchedSnoc(events: seq<Event>, ev: Event)
    ensures Touched(events + [ev]) == Touched(events) + Touched([ev])
  {
  }

  lemma {:induction false} BatchEffect(l: Ledger, events: seq<Event>, lots: Lots)
    requires AppliedOnto(l, events, lots)
    ensures forall s :: s in Touched(events) ==> Tidy(lots, s)
    ensures forall s :: s !in Touched(events) ==> (s in lots <==> s in l.lots) && (s in lots ==> lots[s] == l.lots[s])
  {
    if events != [] {
      AppliedOntoPrefix(l, events, lots);
      var p, ev := events[..|events| - 1], events[|events| - 1];
      var before := FoldAll(l, p).lots;
      BatchEffect(l, p, before);
      ApplyEventEffect(before, ev);
      TouchedSnoc(p, ev);
      assert events == p + [ev];
      hide ApplyEvent, FoldAll, AppliedOnto;
    }
  }

  /** A flush brings the projection rows from the rounded old lots to the rounded new lots. */
  lemma FlushedRows(l: Ledger, events: seq<Event>, lots: Lots)
    requires AppliedOnto(l, events, lots)
    ensures WriteRows(Rounded(l.lots), Touched(events), lots) == Rounded(lots)
  {
    BatchEffect(l, events, lots);
    var touched := Touched(events);
    var rows := WriteRows(Rounded(l.lots), touched, lots);
    hide AppliedOnto, FoldAll, Touched, HasRow, RowOf, RoundLot, Tidy, WriteRows;
    forall s
      ensures s in rows <==> s in lots
      ensures s in lots ==> rows[s] == RoundLot(lots[s])
    {
      WrittenRow(l.lots, touched, lots, s);
    }
  }

  lemma WrittenRow(before: Lots, touched: set<string>, lots: Lots, s: string)
    requires s in touched ==> Tidy(lots, s)
    requires s !in touched ==> (s in lots <==> s in before) && (s in lots ==> lots[s] == before[s])
    ensures var rows := WriteRows(Rounded(before), touched, lots);
            (s in rows <==> s in lots) && (s in lots ==> rows[s] == RoundLot(lots[s]))
  {
    if s in touched {
      TidyRow(lots, s);
    }
    hide HasRow, RowOf, RoundLot, Tidy, At;
  }

  /** A touched symbol has a row just when it has a lot, and the row is the rounded lot. */
  lemma TidyRow(lots: Lots, s: string)
    requires Tidy(lots, s)
    ensures HasRow(At(lots, s)) <==> s in lots
    ensures s in lots ==> RowOf(At(lots, s)) == RoundLot(lots[s])
  {
    hide Round8;
  }

  // ----- the invariant -----

  function LastCursor(events: seq<Event>): Cursor {
    if events == [] then ZERO_CURSOR else CursorOf(events[|events| - 1])
  }

  /** The handled events are logged events in strict order, and the cursor is the last of them. */
  predicate HistoryOk(st: Store, history: seq<Entry>) {
    var handled := EventsOf(history);
    Sorted(handled) && (forall e :: e in handled ==> e in st.log) && st.cursor == LastCursor(handled)
  }

  /** Exactly-once accounting: a logged event is at or below the cursor just when it was handled or missed,
      and never both. */
  predicate Accounted(st: Store, history: seq<Entry>, missed: set<Event>) {
    (forall e :: e in st.log ==> (!After(st.cursor, e) <==> e in EventsOf(history) || e in missed)) &&
    (forall e :: e in missed ==> e in st.log && e !in EventsOf(history))
  }

  /** The projection rows are the rounded lots of the replayed history. */
  predicate ProjectionOk(st: Store, history: seq<Entry>) {
    st.rows == Rounded(Replay(history).lots) && st.dlq == Replay(history).dlq
  }

  /** The longest part of a history that handles nothing behind the cursor c. */
  function UpTo(h: seq<Entry>, c: Cursor): seq<Entry> {
    if forall e :: e in EventsOf(h) ==> !c.Before(CursorOf(e)) then h else UpTo(h[..|h| - 1], c)
  }

  predicate SnapshotsSorted(snapshots: seq<Snapshot>) {
    forall i, j :: 0 <= i < j < |snapshots| ==> snapshots[i].asOf.Before(snapshots[j].asOf)
  }

  /** Every snapshot is as of a handled event and holds the rounded lots of the history up to it. */
  predicate SnapshotsOk(st: Store, history: seq<Entry>) {
    SnapshotsSorted(st.snapshots) &&
    forall sn :: sn in st.snapshots ==>
      (exists e :: e in EventsOf(history) && CursorOf(e) == sn.asOf) &&
      sn.lots == Rounded(Replay(UpTo(history, sn.asOf)).lots)
  }

  /** The worker's memory is the replayed history plus its pending batch, and its page lies behind the
      cursor. */
  predicate WorkerOk(st: Store, history: seq<Entry>, wk: Worker) {
    wk.Up? && !wk.behind ==>
      wk.cur == st.cursor &&
      AppliedOnto(Replay(history), wk.pending, wk.lots) &&
      Sorted(wk.pending + wk.todo) &&
      forall e :: e in wk.pending + wk.todo ==> e in st.log && After(st.cursor, e)
  }

  /** A worker that is behind has dropped its page. */
  predicate BehindIsIdle(wk: Worker) {
    wk.Up? && wk.behind ==> wk.todo == [] && wk.pending == []
  }

  predicate StoreOk(st: Store, history: seq<Entry>, missed: set<Event>) {
    Sorted(st.log) && HistoryOk(st, history) && Accounted(st, history, missed) &&
    ProjectionOk(st, history) && SnapshotsOk(st, history)
  }

  predicate Good(w: World) {
    StoreOk(w.store, w.history, w.missed) && WorkerOk(w.store, w.history, w.worker) && BehindIsIdle(w.worker)
  }

  lemma StartIsGood()
    ensures Good(START)
  {
    hide FoldEvent;
  }

  // ----- order facts -----

  /** Nothing handled lies behind the cursor. */
  lemma HandledBeforeCursor(st: Store, history: seq<Entry>, e: Event)
    requires HistoryOk(st, history) && e in EventsOf(history)
    ensures !After(st.cursor, e) && !st.cursor.Before(CursorOf(e)) && !st.cursor.IsZero()
  {
    var handled := EventsOf(history);
    var i :| 0 <= i < |handled| && handled[i] == e;
    if i < |handled| - 1 {
      assert InOrder(handled[i], handled[|handled| - 1]);
    }
  }

  // ----- snapshots under growing histories -----

  lemma {:induction false} UpToHandles(h: seq<Entry>, entries: seq<Entry>, c: Cursor)
    requires forall e :: e in entries ==> e.Handled? && c.Before(CursorOf(e.ev))
    ensures UpTo(h + entries, c) == UpTo(h, c)
  {
    if entries == [] {
      assert h + entries == h;
    } else {
      var p, last := entries[..|entries| - 1], entries[|entries| - 1];
      assert h + entries == (h + p) + [last];
      ReplaySnoc(h + p, last);
      assert last.ev in EventsOf(h + entries);
      assert (h + entries)[..|h + entries| - 1] == h + p;
      UpToHandles(h, p, c);
    }
  }

  lemma {:induction false} UpToRestart(h: seq<Entry>, c: Cursor)
    ensures Rounded(Replay(UpTo(h + [Restart], c)).lots) == Rounded(Replay(UpTo(h, c)).lots)
  {
    ReplaySnoc(h, Restart);
    assert (h + [Restart])[..|h|] == h;
    RoundedIdempotent(Replay(h).lots);
    hide Rounded, FoldEvent;
  }

  lemma {:induction false} InsertSnapshotFacts(snapshots: seq<Snapshot>, sn: Snapshot)
    requires SnapshotsSorted(snapshots)
    ensures var r := InsertSnapshot(snapshots, sn);
            SnapshotsSorted(r) && forall x :: x in r ==> x == sn || x in snapshots
  {
    if snapshots != [] && !sn.asOf.Before(snapshots[0].asOf) && sn.asOf != snapshots[0].asOf {
      InsertSnapshotFacts(snapshots[1..], sn);
      var rest := InsertSnapshot(snapshots[1..], sn);
      forall x | x in rest
        ensures snapshots[0].asOf.Before(x.asOf)
      {
        if x != sn {
          assert x in snapshots[1..];
        }
      }
    }
  }

  // ----- each action keeps the invariant -----

  lemma AppendKeeps(w: World, ev: Event)
    requires Good(w)
    ensures Good(Next(w, Append(ev)))
  {
    if Next(w, Append(ev)) != w {
      InsertKeepsOrder(w.store.log, ev);
      hide Sorted, Replay, Rounded, UpTo, AppliedOnto, After;
      assert ev !in w.store.log by {
        assert Clash(ev, ev);
      }
    }
  }

  lemma {:induction false} SnapshotsAfterRestart(st: Store, h: seq<Entry>)
    requires SnapshotsOk(st, h)
    ensures SnapshotsOk(st, h + [Restart])
  {
    ReplaySnoc(h, Restart);
    forall sn | sn in st.snapshots
      ensures sn.lots == Rounded(Replay(UpTo(h + [Restart], sn.asOf)).lots)
    {
      UpToRestart(h, sn.asOf);
    }
    hide UpTo, Replay, Rounded;
  }

  lemma {:induction false} StoreAfterRestart(st: Store, h: seq<Entry>, missed: set<Event>)
    requires StoreOk(st, h, missed)
    ensures StoreOk(st, h + [Restart], missed) && Replay(h + [Restart]).lots == st.rows
  {
    ReplaySnoc(h, Restart);
    SnapshotsAfterRestart(st, h);
    RoundedIdempotent(Replay(h).lots);
    hide SnapshotsOk, Rounded, Replay, Sorted;
  }

  lemma {:induction false} RebuildKeeps(w: World, readable: bool)
    requires Good(w)
    ensures Good(Next(w, Rebuild(readable)))
  {
    if w.worker.Down? {
      StoreAfterRestart(w.store, w.history, w.missed);
      LoadedIsRows(w, readable);
      var wk := Loaded(w.store, readable);
      NothingPending(Replay(w.history + [Restart]), wk.lots);
      assert wk.pending + wk.todo == wk.todo;
      assert Sorted(w.store.log);
      hide StoreOk, Loaded, Replay, AppliedOnto;
    }
  }

  /** Whichever source start-up picks, it gets the projection rows at the cursor; the page is empty, or the
      whole log when nothing was handled yet. */
  lemma {:induction false} LoadedIsRows(w: World, readable: bool)
    requires Good(w)
    ensures var wk := Loaded(w.store, readable);
            wk.Up? && !wk.behind && wk.lots == w.store.rows && wk.cur == w.store.cursor && wk.pending == [] &&
            (wk.todo == [] || (wk.todo == w.store.log && w.store.cursor.IsZero()))
  {
    var st, h := w.store, w.history;
    if st.snapshots != [] {
      var sn := st.snapshots[|st.snapshots| - 1];
      assert sn in st.snapshots;
      var e :| e in EventsOf(h) && CursorOf(e) == sn.asOf;
      HandledBeforeCursor(st, h, e);
      if sn.asOf == st.cursor {
        forall x | x in EventsOf(h)
          ensures !sn.asOf.Before(CursorOf(x))
        {
          HandledBeforeCursor(st, h, x);
        }
        assert UpTo(h, sn.asOf) == h;
      }
    }
    if st.cursor.IsZero() {
      assert EventsOf(h) == [];
      NoEventsNothingReplayed(h);
    }
    hide UpTo, FoldEvent;
  }

  /** A page to apply holds logged events behind the cursor, in order. */
  lemma EligiblePage(log: seq<Event>, cur: Cursor, cutoff: int, watermark: int)
    requires Sorted(log)
    ensures var eligible := EligibleBatch(Take(Behind(log, cur), PAGE), cutoff, watermark, PAGE);
            Sorted(eligible) && forall e :: e in eligible ==> e in log && After(cur, e)
  {
    BehindFacts(log, cur);
    var eligible := EligibleBatch(Take(Behind(log, cur), PAGE), cutoff, watermark, PAGE);
    assert eligible <= Behind(log, cur);
    forall e | e in eligible
      ensures e in Behind(log, cur)
    {
    }
    hide EligibleBatch, Behind, Take;
  }

  lemma FetchKeeps(w: World, cutoff: int, watermark: int)
    requires Good(w) && !Next(w, Fetch(cutoff, watermark)).torn
    ensures Good(Next(w, Fetch(cutoff, watermark)))
  {
    if Enabled(w, Fetch(cutoff, watermark)) {
      EligiblePage(w.store.log, w.worker.cur, cutoff, watermark);
      hide AppliedOnto, StoreOk, EligibleBatch, Behind, Take;
      var eligible := Next(w, Fetch(cutoff, watermark)).worker.todo;
      assert [] + eligible == eligible;
    }
  }

  lemma ApplyNextKeeps(w: World)
    requires Good(w)
    ensures Good(Next(w, ApplyNext))
  {
    if Enabled(w, ApplyNext) {
      ApplyNextKeepsWorker(w.store, w.history, w.worker);
      hide StoreOk, WorkerOk, ApplyEvent;
    }
  }

  lemma ApplyNextKeepsWorker(st: Store, h: seq<Entry>, wk: Worker)
    requires WorkerOk(st, h, wk) && wk.Up? && !wk.behind && wk.todo != []
    requires ApplyEvent(wk.lots, wk.todo[0]).Applied?
    ensures var ev := wk.todo[0];
            WorkerOk(st, h, wk.(lots := ApplyEvent(wk.lots, ev).lots, pending := wk.pending + [ev], todo := wk.todo[1..]))
  {
    var ev := wk.todo[0];
    AppliedOntoSnoc(Replay(h), wk.pending, wk.lots, ev);
    hide AppliedOnto, ApplyEvent, Replay;
    assert wk.todo == [ev] + wk.todo[1..];
    assert (wk.pending + [ev]) + wk.todo[1..] == wk.pending + wk.todo;
  }

  lemma AbandonKeeps(w: World, behind: bool)
    requires Good(w) && w.worker.Up?
    requires !behind ==> w.worker.pending == [] && !w.worker.behind
    ensures Good(w.(worker := Abandon(w.worker, behind)))
  {
    hide AppliedOnto, StoreOk;
  }

  lemma {:induction false} SnapshotsAfterCheckpoint(st: Store, h: seq<Entry>, lots: Lots)
    requires HistoryOk(st, h) && SnapshotsOk(st, h) && !st.cursor.IsZero() && lots == Replay(h).lots
    ensures SnapshotsOk(st.(snapshots := InsertSnapshot(st.snapshots, Snapshot(st.cursor, Rounded(lots)))), h)
  {
    InsertSnapshotFacts(st.snapshots, Snapshot(st.cursor, Rounded(lots)));
    forall x | x in EventsOf(h)
      ensures !st.cursor.Before(CursorOf(x))
    {
      HandledBeforeCursor(st, h, x);
    }
    assert UpTo(h, st.cursor) == h;
    var handled := EventsOf(h);
    assert handled[|handled| - 1] in handled;
    hide UpTo, Replay, Rounded, InsertSnapshot;
  }

  lemma {:induction false} StoreAfterCheckpoint(st: Store, h: seq<Entry>, missed: set<Event>, lots: Lots)
    requires StoreOk(st, h, missed) && !st.cursor.IsZero() && lots == Replay(h).lots
    ensures StoreOk(st.(snapshots := InsertSnapshot(st.snapshots, Snapshot(st.cursor, Rounded(lots)))), h, missed)
  {
    SnapshotsAfterCheckpoint(st, h, lots);
    hide SnapshotsOk, Replay, InsertSnapshot, Sorted, Rounded;
  }

  lemma CheckpointKeeps(w: World)
    requires Good(w)
    ensures Good(Next(w, Checkpoint))
  {
    if Enabled(w, Checkpoint) {
      hide StoreOk, Replay, InsertSnapshot, Sorted, Rounded;
      assert w.worker.lots == Replay(w.history).lots;
      hide AppliedOnto;
      StoreAfterCheckpoint(w.store, w.history, w.missed, w.worker.lots);
    }
  }

  // ----- committed transactions -----

  /** A non-empty batch of logged events behind the cursor, in order. */
  predicate BatchOk(st: Store, batch: seq<Event>) {
    batch != [] && Sorted(batch) && forall e :: e in batch ==> e in st.log && After(st.cursor, e)
  }

  /** Handling a batch extends the history and accounts for every event the cursor passes. */
  lemma CommitKeepsHistory(w: World, st: Store, entries: seq<Entry>, batch: seq<Event>)
    requires HistoryOk(w.store, w.history) && Accounted(w.store, w.history, w.missed)
    requires BatchOk(w.store, batch) && EventsOf(w.history + entries) == EventsOf(w.history) + batch
    requires st.log == w.store.log && st.cursor == CursorOf(batch[|batch| - 1])
    ensures var r := Commits(w, st, entries, batch);
            HistoryOk(st, r.history) && Accounted(st, r.history, r.missed)
    ensures w.store.cursor.IsZero() || w.store.cursor.Before(st.cursor)
  {
    var handled := EventsOf(w.history);
    var last := batch[|batch| - 1];
    assert last in batch;
    SortedAppend(handled, batch, w.store, w.history);
    CursorPassesBatch(batch);
    CommitAccounts(w, st, entries, batch);
    hide Accounted, Sorted;
    assert (handled + batch)[|handled + batch| - 1] == last;
  }

  lemma SortedAppend(handled: seq<Event>, batch: seq<Event>, st: Store, h: seq<Entry>)
    requires HistoryOk(st, h) && handled == EventsOf(h) && BatchOk(st, batch)
    ensures Sorted(handled + batch)
  {
    forall i, j | 0 <= i < j < |handled + batch|
      ensures InOrder((handled + batch)[i], (handled + batch)[j])
    {
      if i < |handled| <= j {
        HandledBeforeCursor(st, h, handled[i]);
        assert batch[j - |handled|] in batch;
      }
    }
  }

  /** The cursor moves forward, past every event of the batch. */
  lemma CursorPassesBatch(batch: seq<Event>)
    requires batch != [] && Sorted(batch)
    ensures forall e :: e in batch ==> !After(CursorOf(batch[|batch| - 1]), e)
  {
    forall e | e in batch
      ensures !After(CursorOf(batch[|batch| - 1]), e)
    {
      var i :| 0 <= i < |batch| && batch[i] == e;
      if i < |batch| - 1 {
        assert InOrder(batch[i], batch[|batch| - 1]);
      }
    }
  }

  lemma CommitAccounts(w: World, st: Store, entries: seq<Entry>, batch: seq<Event>)
    requires Accounted(w.store, w.history, w.missed)
    requires BatchOk(w.store, batch) && EventsOf(w.history + entries) == EventsOf(w.history) + batch
    requires st.log == w.store.log && st.cursor == CursorOf(batch[|batch| - 1])
    ensures var r := Commits(w, st, entries, batch);
            Accounted(st, r.history, r.missed)
  {
    CursorPassesBatch(batch);
    assert batch[|batch| - 1] in batch;
    var r := Commits(w, st, entries, batch);
    forall e | e in st.log
      ensures !After(st.cursor, e) <==> e in EventsOf(r.history) || e in r.missed
    {
      if !After(w.store.cursor, e) {
        assert !After(st.cursor, e);
      }
    }
  }

  lemma {:induction false} CommitKeepsSnapshots(w: World, st: Store, entries: seq<Entry>, batch: seq<Event>)
    requires HistoryOk(w.store, w.history) && SnapshotsOk(w.store, w.history)
    requires BatchOk(w.store, batch) && EventsOf(w.history + entries) == EventsOf(w.history) + batch
    requires forall e :: e in entries ==> e.Handled? && e.ev in batch
    requires st.snapshots == w.store.snapshots
    ensures SnapshotsOk(st, w.history + entries)
  {
    forall sn | sn in st.snapshots
      ensures UpTo(w.history + entries, sn.asOf) == UpTo(w.history, sn.asOf)
      ensures exists e :: e in EventsOf(w.history + entries) && CursorOf(e) == sn.asOf
    {
      var e :| e in EventsOf(w.history) && CursorOf(e) == sn.asOf;
      HandledBeforeCursor(w.store, w.history, e);
      assert e in EventsOf(w.history + entries);
      UpToHandles(w.history, entries, sn.asOf);
    }
    hide UpTo, Replay, Rounded;
  }

  lemma {:induction false} FlushCommits(w: World)
    requires Good(w) && w.worker.Up? && !w.worker.behind && w.worker.pending != []
    ensures var wk := w.worker;
            var done := Commits(w, BatchApplied(w.store, wk.pending, wk.lots), Handles(wk.pending), wk.pending);
            StoreOk(done.store, done.history, done.missed) && AppliedOnto(Replay(done.history), [], wk.lots)
  {
    var wk := w.worker;
    var st, entries := BatchApplied(w.store, wk.pending, wk.lots), Handles(wk.pending);
    var done := Commits(w, st, entries, wk.pending);
    SplitSorted(wk.pending, wk.todo);
    ReplayHandles(w.history, wk.pending);
    assert BatchOk(w.store, wk.pending) by {
      hide AppliedOnto;
    }
    CommitKeepsHistory(w, st, entries, wk.pending);
    CommitKeepsSnapshots(w, st, entries, wk.pending);
    FlushedRows(Replay(w.history), wk.pending, wk.lots);
    hide SnapshotsOk, HistoryOk, Accounted, Sorted, Handles, Replay, Touched, WriteRows, Rounded;
    assert Replay(done.history).lots == wk.lots;
    NothingPending(Replay(done.history), wk.lots);
  }

  lemma WorkerAfterFlush(st: Store, h: seq<Entry>, wk: Worker, st': Store, h': seq<Entry>)
    requires WorkerOk(st, h, wk) && wk.Up? && !wk.behind && wk.pending != []
    requires st'.log == st.log && st'.cursor == CursorOf(wk.pending[|wk.pending| - 1])
    requires AppliedOnto(Replay(h'), [], wk.lots)
    ensures WorkerOk(st', h', wk.(cur := st'.cursor, pending := []))
  {
    SplitSorted(wk.pending, wk.todo);
    RestBehindBatch(wk.pending, wk.todo);
    hide AppliedOnto, Sorted, Replay, After;
    assert [] + wk.todo == wk.todo;
  }

  lemma FlushKeeps(w: World, outcome: Commit)
    requires Good(w)
    ensures Good(Next(w, Flush(outcome)))
  {
    if Enabled(w, Flush(outcome)) {
      hide AppliedOnto, StoreOk, Sorted, Replay, WorkerOk, WriteRows, Handles, Touched;
      assert !w.worker.behind;
      if outcome == Failed {
        AbandonKeeps(w, true);
      } else {
        var r := Next(w, Flush(outcome));
        FlushCommits(w);
        WorkerAfterFlush(w.store, w.history, w.worker, r.store, r.history);
        hide Skipped, After;
        if outcome == Unacknowledged {
          BehindIsOk(r.store, r.history, r.worker);
        }
      }
    }
  }

  lemma SplitSorted(a: seq<Event>, b: seq<Event>)
    requires Sorted(a + b)
    ensures Sorted(a) && Sorted(b)
  {
    forall i, j | 0 <= i < j < |a|
      ensures InOrder(a[i], a[j])
    {
      assert a[i] == (a + b)[i] && a[j] == (a + b)[j];
    }
    forall i, j | 0 <= i < j < |b|
      ensures InOrder(b[i], b[j])
    {
      assert b[i] == (a + b)[|a| + i] && b[j] == (a + b)[|a| + j];
    }
  }

  /** The rest of a page lies behind the part just handled. */
  lemma RestBehindBatch(batch: seq<Event>, rest: seq<Event>)
    requires batch != [] && Sorted(batch + rest)
    ensures forall e :: e in rest ==> After(CursorOf(batch[|batch| - 1]), e)
  {
    forall e | e in rest
      ensures After(CursorOf(batch[|batch| - 1]), e)
    {
      var j :| 0 <= j < |rest| && rest[j] == e;
      assert InOrder((batch + rest)[|batch| - 1], (batch + rest)[|batch| + j]);
    }
  }

  lemma DeadLetterProjection(st: Store, h: seq<Entry>, ev: Event, stale: bool)
    requires ProjectionOk(st, h)
    requires stale || ApplyEvent(Replay(h).lots, ev).Underflow?
    ensures ProjectionOk(DeadLettered(st, ev, if stale then EventTooStale else PositionUnderflow), h + [Handled(ev, stale)])
    ensures Replay(h + [Handled(ev, stale)]).lots == Replay(h).lots
  {
    ReplaySnoc(h, Handled(ev, stale));
    hide Replay, ApplyEvent, Rounded;
  }

  lemma DeadLetterCommits(w: World, ev: Event, stale: bool)
    requires Good(w) && w.worker.Up? && !w.worker.behind && w.worker.pending == []
    requires w.worker.todo != [] && ev == w.worker.todo[0]
    requires stale || ApplyEvent(w.worker.lots, ev).Underflow?
    ensures var st := DeadLettered(w.store, ev, if stale then EventTooStale else PositionUnderflow);
            var done := Commits(w, st, [Handled(ev, stale)], [ev]);
            StoreOk(done.store, done.history, done.missed) && AppliedOnto(Replay(done.history), [], w.worker.lots)
  {
    hide Replay, ApplyEvent, FoldEvent;
    var wk := w.worker;
    assert wk.pending + wk.todo == wk.todo && ev in wk.todo;
    assert FoldAll(Replay(w.history), []) == Replay(w.history);
    assert wk.lots == Replay(w.history).lots;
    hide AppliedOnto;
    StoreAfterLetter(w, ev, stale);
    NothingPending(Replay(w.history + [Handled(ev, stale)]), wk.lots);
    hide StoreOk;
  }

  lemma StoreAfterLetter(w: World, ev: Event, stale: bool)
    requires StoreOk(w.store, w.history, w.missed) && ev in w.store.log && After(w.store.cursor, ev)
    requires stale || ApplyEvent(Replay(w.history).lots, ev).Underflow?
    ensures var st := DeadLettered(w.store, ev, if stale then EventTooStale else PositionUnderflow);
            var done := Commits(w, st, [Handled(ev, stale)], [ev]);
            StoreOk(done.store, done.history, done.missed) && Replay(done.history).lots == Replay(w.history).lots
  {
    hide ApplyEvent, SnapshotsOk, HistoryOk, Accounted;
    var st := DeadLettered(w.store, ev, if stale then EventTooStale else PositionUnderflow);
    var entries := [Handled(ev, stale)];
    DeadLetterProjection(w.store, w.history, ev, stale);
    ReplaySnoc(w.history, Handled(ev, stale));
    assert BatchOk(w.store, [ev]);
    CommitKeepsHistory(w, st, entries, [ev]);
    CommitKeepsSnapshots(w, st, entries, [ev]);
    hide ProjectionOk, Sorted, Replay, EventsOf;
  }

  /** The worker goes on behind the event it has just set aside. */
  lemma WorkerAfterLetter(st: Store, h: seq<Entry>, wk: Worker, st': Store, h': seq<Entry>)
    requires WorkerOk(st, h, wk) && wk.Up? && !wk.behind && wk.pending == [] && wk.todo != []
    requires st'.log == st.log && st'.cursor == CursorOf(wk.todo[0]) && AppliedOnto(Replay(h'), [], wk.lots)
    ensures WorkerOk(st', h', wk.(cur := st'.cursor, todo := wk.todo[1..]))
  {
    var ev, rest := wk.todo[0], wk.todo[1..];
    assert wk.pending + wk.todo == wk.todo == [ev] + rest;
    SplitSorted([ev], rest);
    RestBehindBatch([ev], rest);
    hide AppliedOnto, Sorted, Replay, After;
    assert [] + rest == rest;
  }

  lemma DeadLetterKeeps(w: World, stale: bool, outcome: Commit)
    requires Good(w)
    ensures Good(Next(w, DeadLetterNext(stale, outcome)))
  {
    if Enabled(w, DeadLetterNext(stale, outcome)) {
      hide AppliedOnto, StoreOk, ApplyEvent, Sorted, Replay, WorkerOk;
      assert !w.worker.behind;
      if outcome == Failed {
        AbandonKeeps(w, false);
      } else {
        var r := Next(w, DeadLetterNext(stale, outcome));
        DeadLetterCommits(w, w.worker.todo[0], stale);
        WorkerAfterLetter(w.store, w.history, w.worker, r.store, r.history);
        hide Skipped, After;
        if outcome == Unacknowledged {
          BehindIsOk(r.store, r.history, r.worker);
        }
      }
    }
  }

  lemma BehindIsOk(st: Store, h: seq<Entry>, wk: Worker)
    requires wk.Up? && wk.behind
    ensures WorkerOk(st, h, wk)
  {
  }

  // ----- whole runs -----

  /** One action keeps the invariant, unless it is the fetch of a worker that is behind. */
  lemma NextKeeps(w: World, a: Action)
    requires Good(w) && !Next(w, a).torn
    ensures Good(Next(w, a))
  {
    match a {
      case Append(ev) => AppendKeeps(w, ev);
      case Rebuild(readable) => RebuildKeeps(w, readable);
      case Fetch(cutoff, watermark) => FetchKeeps(w, cutoff, watermark);
      case ApplyNext => ApplyNextKeeps(w);
      case Refuse =>
        if Enabled(w, a) {
          AbandonKeeps(w, w.worker.behind);
        }
      case Flush(outcome) => FlushKeeps(w, outcome);
      case DeadLetterNext(stale, outcome) => DeadLetterKeeps(w, stale, outcome);
      case Checkpoint => CheckpointKeeps(w);
      case Crash =>
    }
  }

  lemma {:induction false} RunKeeps(w: World, actions: seq<Action>)
    requires Good(w) && !Run(w, actions).torn
    ensures Good(Run(w, actions))
    ensures !w.torn
  {
    if actions != [] {
      RunKeeps(w, actions[..|actions| - 1]);
      NextKeeps(Run(w, actions[..|actions| - 1]), actions[|actions| - 1]);
    }
    hide Good;
  }
}
