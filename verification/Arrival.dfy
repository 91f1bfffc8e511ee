/** When an appended event is lost: which arrivals the worker is guaranteed to see.

    A fetch never returns rows at or below the cursor, and a page that has been fetched is applied without
    looking at the table again. So an event is passed over when it lands at or below the cursor, and also
    when it lands below a page that is already in flight and that page is then committed. */
module Arrival {
  import opened Positions
  import opened Events
  import opened EventTable
  import opened History
  import opened Accounting
  import opened Watermark
  import opened Partition
  import opened Refinement
  import opened Runs

  /** The event lands behind the cursor and behind everything the worker has fetched and not committed. */
  predicate LandsBehindFrontier(w: World, ev: Event) {
    After(w.store.cursor, ev) &&
    (w.worker.Up? ==> forall e :: e in w.worker.pending + w.worker.todo ==> InOrder(e, ev))
  }

  predicate AppendsBehindFrontier(w: World, actions: seq<Action>) {
    forall k :: 0 <= k < |actions| && actions[k].Append? ==>
      LandsBehindFrontier(Run(w, actions[..k]), actions[k].ev)
  }

  /** Nothing was missed, and the page in flight is the next stretch of the log. */
  predicate Seamless(w: World) {
    w.missed == {} && PageIsNext(w.store, w.worker)
  }

  /** What lies in front of a member of the log lies in front of its first row. */
  lemma NotInFrontOfMember(log: seq<Event>, e: Event, ev: Event)
    requires Sorted(log) && e in log && InOrder(e, ev)
    ensures !InOrder(ev, log[0])
  {
    var i :| 0 <= i < |log| && log[i] == e;
    if i > 0 {
      assert InOrder(log[0], log[i]);
    }
  }

  lemma {:induction false} BehindAfterInsert(log: seq<Event>, cur: Cursor, ev: Event, page: seq<Event>)
    requires Sorted(log) && page <= Behind(log, cur) && After(cur, ev)
    requires forall e :: e in page ==> InOrder(e, ev)
    ensures page <= Behind(Insert(log, ev), cur)
  {
    if page != [] {
      BehindFacts(log, cur);
      assert page[0] in page && page[0] in Behind(log, cur);
      NotInFrontOfMember(log, page[0], ev);
      TailElements(log);
      if After(cur, log[0]) {
        BehindAfterInsert(log[1..], cur, ev, page[1..]);
      } else {
        BehindAfterInsert(log[1..], cur, ev, page);
      }
    }
  }

  /** After handling a prefix of what lies behind the cursor, the remainder lies behind the new cursor and
      nothing was jumped over. */
  lemma BehindAfterBatch(log: seq<Event>, cur: Cursor, batch: seq<Event>)
    requires Sorted(log) && batch != [] && batch <= Behind(log, cur)
    ensures var next := CursorOf(batch[|batch| - 1]);
            Behind(log, next) == Behind(log, cur)[|batch|..] && Skipped(log, cur, next, batch) == {}
  {
    var all := Behind(log, cur);
    var next := CursorOf(batch[|batch| - 1]);
    BehindFacts(log, cur);
    BehindFacts(log, next);
    var rest := all[|batch|..];
    assert all == batch + rest;
    SplitSorted(batch, rest);
    RestBehindBatch(batch, rest);
    CursorPassesBatch(batch);
    forall e
      ensures e in rest <==> e in Behind(log, next)
    {
      if e in Behind(log, next) {
        AfterMonotone(cur, batch[|batch| - 1], e);
        assert e in all;
        assert e !in batch;
      }
      if e in rest {
        assert e in all;
      }
    }
    SortedUnique(rest, Behind(log, next));
    forall e | e in log && After(cur, e) && !After(next, e)
      ensures e in batch
    {
      assert e in all;
    }
  }

  lemma AfterMonotone(cur: Cursor, last: Event, e: Event)
    requires After(cur, last) && After(CursorOf(last), e)
    ensures After(cur, e)
  {
  }

  /** The worker's page is the next stretch of what lies behind the cursor. */
  predicate PageIsNext(st: Store, wk: Worker) {
    wk.Up? && !wk.behind ==> wk.pending + wk.todo <= Behind(st.log, st.cursor)
  }

  lemma AppendSeamless(w: World, ev: Event)
    requires Sorted(w.store.log) && PageIsNext(w.store, w.worker) && LandsBehindFrontier(w, ev)
    ensures PageIsNext(Appended(w.store, ev), w.worker)
  {
    if w.worker.Up? && !w.worker.behind {
      BehindAfterInsert(w.store.log, w.store.cursor, ev, w.worker.pending + w.worker.todo);
    }
  }

  lemma LoadedSeamless(w: World, readable: bool)
    requires Good(w)
    ensures PageIsNext(w.store, Loaded(w.store, readable))
  {
    LoadedIsRows(w, readable);
    hide Good, Loaded;
    assert [] + w.store.log == w.store.log;
    if w.store.cursor.IsZero() {
      BehindEverything(w.store.log, w.store.cursor);
    }
  }

  lemma EligibleIsNext(pending: seq<Event>, cutoff: int, watermark: int)
    ensures EligibleBatch(Take(pending, PAGE), cutoff, watermark, PAGE) <= pending
  {
  }

  lemma FetchSeamless(w: World, cutoff: int, watermark: int)
    requires Good(w) && Enabled(w, Fetch(cutoff, watermark)) && !w.worker.behind
    ensures PageIsNext(w.store, Next(w, Fetch(cutoff, watermark)).worker)
  {
    hide StoreOk, AppliedOnto, ApplyEvent, EligibleBatch, Take, Behind, Sorted;
    EligibleIsNext(Behind(w.store.log, w.worker.cur), cutoff, watermark);
    var eligible := Next(w, Fetch(cutoff, watermark)).worker.todo;
    assert [] + eligible == eligible;
  }

  /** Committing the first part of the page leaves the rest as the page and jumps over nothing. */
  lemma CommitSeamless(log: seq<Event>, cur: Cursor, batch: seq<Event>, rest: seq<Event>)
    requires Sorted(log) && batch != [] && batch + rest <= Behind(log, cur)
    ensures var next := CursorOf(batch[|batch| - 1]);
            rest <= Behind(log, next) && Skipped(log, cur, next, batch) == {}
  {
    assert batch <= batch + rest;
    BehindAfterBatch(log, cur, batch);
    assert rest <= Behind(log, cur)[|batch|..];
  }

  lemma FlushSeamless(w: World, outcome: Commit)
    requires Sorted(w.store.log) && Seamless(w) && w.worker.Up? && w.worker.pending != [] && !w.worker.behind
    ensures Seamless(Flushed(w, outcome))
  {
    var wk, st := w.worker, w.store;
    CommitSeamless(st.log, st.cursor, wk.pending, wk.todo);
    hide Skipped, Behind, Handles, WriteRows, Touched;
    assert [] + wk.todo == wk.todo;
    assert [] + [] <= Behind(st.log, st.cursor);
  }

  lemma DeadLetterSeamless(w: World, stale: bool, outcome: Commit)
    requires Sorted(w.store.log) && Seamless(w) && w.worker.Up? && w.worker.pending == [] && w.worker.todo != []
    requires !w.worker.behind
    ensures Seamless(DeadLetteredNext(w, stale, outcome))
  {
    var st, ev, rest := w.store, w.worker.todo[0], w.worker.todo[1..];
    assert w.worker.pending + w.worker.todo == [ev] + rest;
    CommitSeamless(st.log, st.cursor, [ev], rest);
    hide Skipped, Behind;
    assert [] + rest == rest;
    assert [] + [] <= Behind(st.log, st.cursor);
  }

  lemma FetchStepSeamless(w: World, cutoff: int, watermark: int)
    requires Good(w) && Seamless(w) && Enabled(w, Fetch(cutoff, watermark)) && !Next(w, Fetch(cutoff, watermark)).torn
    ensures Seamless(Next(w, Fetch(cutoff, watermark)))
  {
    FetchSeamless(w, cutoff, watermark);
    hide Good, EligibleBatch, Behind, Take, PageIsNext;
  }

  lemma ApplyStepSeamless(w: World)
    requires Seamless(w) && Enabled(w, ApplyNext)
    ensures Seamless(Next(w, ApplyNext))
  {
    hide ApplyEvent, Behind;
    var wk := w.worker;
    assert wk.pending + [wk.todo[0]] + wk.todo[1..] == wk.pending + wk.todo;
  }

  lemma AppendStepSeamless(w: World, ev: Event)
    requires Sorted(w.store.log) && Seamless(w) && LandsBehindFrontier(w, ev)
    ensures Seamless(Next(w, Append(ev)))
  {
    AppendSeamless(w, ev);
    hide Behind, Sorted, Appended, PageIsNext;
  }

  lemma RebuildStepSeamless(w: World, readable: bool)
    requires Good(w) && Seamless(w) && Enabled(w, Rebuild(readable))
    ensures Seamless(Next(w, Rebuild(readable)))
  {
    LoadedSeamless(w, readable);
    hide Good, Loaded, PageIsNext;
  }

  /** Giving up a page, writing a checkpoint and crashing leave no page in flight or the same one. */
  lemma QuietStepSeamless(w: World, a: Action)
    requires Seamless(w) && Enabled(w, a) && (a == Refuse || a == Checkpoint || a == Crash)
    ensures Seamless(Next(w, a))
  {
    hide ApplyEvent, Behind;
    assert [] + [] <= Behind(w.store.log, w.store.cursor);
  }

  lemma NextSeamless(w: World, a: Action)
    requires Good(w) && Seamless(w) && !Next(w, a).torn
    requires a.Append? ==> LandsBehindFrontier(w, a.ev)
    ensures Seamless(Next(w, a))
  {
    if Enabled(w, a) {
      assert Sorted(w.store.log) && BehindIsIdle(w.worker);
      hide Good, ApplyEvent, Sorted, Seamless, LandsBehindFrontier, Flushed, DeadLetteredNext, Loaded, Appended, EligibleBatch;
      match a {
        case Append(ev) => AppendStepSeamless(w, ev);
        case Rebuild(readable) => RebuildStepSeamless(w, readable);
        case Fetch(cutoff, watermark) => FetchStepSeamless(w, cutoff, watermark);
        case ApplyNext => ApplyStepSeamless(w);
        case Flush(outcome) => FlushSeamless(w, outcome);
        case DeadLetterNext(stale, outcome) => DeadLetterSeamless(w, stale, outcome);
        case Refuse => QuietStepSeamless(w, a);
        case Checkpoint => QuietStepSeamless(w, a);
        case Crash => QuietStepSeamless(w, a);
      }
    }
  }

  lemma {:induction false} BehindEverything(log: seq<Event>, cur: Cursor)
    requires cur.IsZero()
    ensures Behind(log, cur) == log
  {
    if log != [] {
      BehindEverything(log[1..], cur);
    }
  }

  /** If every append lands behind the frontier, no event is ever lost: what was handled is the whole log
      up to the cursor. */
  lemma {:induction false} NothingIsMissed(actions: seq<Action>)
    requires !Run(START, actions).torn && AppendsBehindFrontier(START, actions)
    ensures Seamless(Run(START, actions)) && Good(Run(START, actions))
  {
    StartIsGood();
    RunKeeps(START, actions);
    if actions != [] {
      var p, a := actions[..|actions| - 1], actions[|actions| - 1];
      TornForever(Run(START, p), a);
      RunKeeps(START, p);
      forall k | 0 <= k < |p| && p[k].Append?
        ensures LandsBehindFrontier(Run(START, p[..k]), p[k].ev)
      {
        assert p[..k] == actions[..k] && p[k] == actions[k];
      }
      NothingIsMissed(p);
      hide Good, Seamless, LandsBehindFrontier;
      NextSeamless(Run(START, p), a);
    }
  }

  /** Restart is the latest snapshot plus the replay of the tail, and it is as if the worker had never stopped:
      with every append behind the frontier, stored quantities and dead letters are those of one fold of the
      whole log up to the cursor, and average cost and realized profit are within the drift bounds. */
  lemma {:induction false} LogRefinement(actions: seq<Action>, s: string)
    requires !Run(START, actions).torn && AppendsBehindFrontier(START, actions) && NoStaleActions(actions)
    requires EightDecimals(Run(START, actions).store.log)
    ensures var w := Run(START, actions);
            var fold := Fold(Covered(w.store.log, w.store.cursor, {}));
            var n, sold, r := BuyCount(fold.applied, s), QtySold(fold.applied, s), Restarts(w.history);
            w.store.dlq == fold.dlq &&
            Close(At(w.store.rows, s), At(fold.lots, s), AvgBound(r + 1, n), RealizedBound(r + 1, n, sold))
  {
    hide Run, Good, Covered, Fold, AvgBound, RealizedBound, BuyCount, QtySold, Close, NoStaleActions, EightDecimals,
         AppendsBehindFrontier, PageIsNext, Restarts;
    NothingIsMissed(actions);
    ReplayRefinement(actions, s);
  }

  /** Missed events stay missed. */
  lemma MissedForever(w: World, a: Action)
    ensures w.missed <= Next(w, a).missed
  {
    hide ApplyEvent, Loaded, BatchApplied, DeadLettered;
  }

  lemma {:induction false} MissedForeverInRuns(actions: seq<Action>, k: nat)
    requires k <= |actions|
    ensures Run(START, actions[..k]).missed <= Run(START, actions).missed
  {
    if k == |actions| {
      assert actions[..k] == actions;
    } else {
      var p := actions[..|actions| - 1];
      assert p[..k] == actions[..k];
      MissedForeverInRuns(p, k);
      MissedForever(Run(START, p), actions[|actions| - 1]);
      hide Next;
    }
  }

  /** The append stores a row. */
  predicate Stores(w: World, ev: Event) {
    !exists e :: e in w.store.log && Clash(e, ev)
  }

  lemma StoresMeansInsert(w: World, ev: Event)
    requires Stores(w, ev)
    ensures Next(w, Append(ev)).store.log == Insert(w.store.log, ev) != w.store.log
  {
    InsertAddsOne(w.store.log, ev);
    assert multiset(Insert(w.store.log, ev))[ev] == multiset(w.store.log)[ev] + 1;
  }
}
