/** A worker that is kept after its flush was reported as failed: what handling the next page does, with the exact
    condition under which nothing is wrong afterwards. */
module KeptWorker {
  import opened Decimals
  import opened Positions
  import opened Events
  import opened EventTable
  import opened History
  import opened Accounting
  import opened Watermark
  import opened Options
  import opened Partition
  import opened Refinement
  import opened Arrival
  import opened Losses
  import opened Hazards
  import opened Pages

  // ----- applying a batch once more -----

  /** The lots after all events were applied, or none when one of them would not be. */
  function Reapply(lots: Lots, events: seq<Event>): Option<Lots> {
    if events == [] then Some(lots)
    else
      match Reapply(lots, events[..|events| - 1])
      case None => None
      case Some(l) =>
        var r := ApplyEvent(l, events[|events| - 1]);
        if r.Applied? then Some(r.lots) else None
  }

  /** Applying the batch to the lots succeeds and changes no stored field of any lot: neither quantity, nor
      average cost, nor realized profit. */
  predicate Inert(lots: Lots, events: seq<Event>) {
    InertBefore(lots, events, [])
  }

  /** Applying the batch in front of the rest succeeds and makes no difference: after the rest every stored field of
      every lot is the same, and so are the trades that were rejected. */
  predicate InertBefore(lots: Lots, events: seq<Event>, rest: seq<Event>) {
    Reapply(lots, events).Some? &&
    var with, without := HandleAll(Reapply(lots, events).value, rest), HandleAll(lots, rest);
    Rounded(with.lots) == Rounded(without.lots) && with.dlq == without.dlq
  }

  lemma InertMeans(lots: Lots, events: seq<Event>)
    ensures Inert(lots, events) <==>
            var r := Reapply(lots, events); r.Some? && Rounded(r.value) == Rounded(lots)
  {
    hide Rounded, Reapply;
  }

  lemma {:induction false} ReapplyIsFold(l: Ledger, events: seq<Event>)
    ensures Reapply(l.lots, events).Some? ==> AppliedOnto(l, events, Reapply(l.lots, events).value)
  {
    hide ApplyEvent, AppliedOnto;
    if events == [] {
      NothingPending(l, l.lots);
    } else {
      var p, ev := events[..|events| - 1], events[|events| - 1];
      ReapplyIsFold(l, p);
      assert events == p + [ev];
      if Reapply(l.lots, events).Some? {
        AppliedOntoSnoc(l, p, Reapply(l.lots, p).value, ev);
      }
    }
  }

  lemma {:induction false} AppliedHasNoUnknownSide(l: Ledger, events: seq<Event>, lots: Lots)
    requires AppliedOnto(l, events, lots)
    ensures NoUnknownSide(events)
  {
    if events != [] {
      var p, ev := events[..|events| - 1], events[|events| - 1];
      AppliedOntoPrefix(l, events, lots);
      AppliedHasNoUnknownSide(l, p, FoldAll(l, p).lots);
      assert events == p + [ev];
      hide AppliedOnto, FoldAll, Bought, Sold;
    }
  }

  // ----- any page -----

  /** A worker is kept after its flush was reported as failed, whether or not it had committed, and fetches the page
      after whatever has arrived since. */
  predicate Refetches(w: World, outcome: Commit, arrivals: seq<Event>, cutoff: int, watermark: int, page: seq<Event>) {
    w.worker.Up? && !w.worker.behind && w.worker.pending != [] && outcome != Committed &&
    var again := Again(w, Flush(outcome), arrivals, cutoff, watermark);
    again.worker.Up? && again.worker.todo == page
  }

  /** The two hold the same for a symbol, as far as it is stored. */
  predicate SameStored(x: Lots, y: Lots, s: string) {
    (s in x <==> s in y) && (s in x ==> RoundLot(x[s]) == RoundLot(y[s]))
  }

  /** Handling the page on top of the worker's memory rejects the same trades as on top of the lots in front of the lost
      batch, and leaves the same to store: for the symbols that are written, and when the batch had committed for all. */
  ghost predicate PageIsRight(before: Lots, memory: Lots, page: seq<Event>, outcome: Commit) {
    var f, g := HandleAll(memory, page), HandleAll(before, page);
    f.dlq == g.dlq && forall s :: outcome == Unacknowledged || s in Touched(f.applied) ==> SameStored(f.lots, g.lots, s)
  }

  lemma FlushFacts(w: World, outcome: Commit)
    requires Good(w) && w.worker.Up? && !w.worker.behind && w.worker.pending != [] && outcome != Committed
    ensures var kept := Flushed(w, outcome);
            kept == Next(w, Flush(outcome)) && kept.worker == Abandon(w.worker, true) &&
            kept.store.dlq == Replay(w.history).dlq && kept.store.log == w.store.log && Sorted(w.store.log) &&
            kept.store.rows == if outcome == Failed then Rounded(Replay(w.history).lots) else Rounded(w.worker.lots)
    ensures AppliedOnto(Replay(w.history), w.worker.pending, w.worker.lots)
  {
    FlushedRows(Replay(w.history), w.worker.pending, w.worker.lots);
    hide Sorted, HistoryOk, Accounted, SnapshotsOk, AppliedOnto, WriteRows, Touched, Rounded, Replay, Skipped, Handles;
  }

  /** Writing the touched symbols over rows that hold other lots. */
  lemma RowsWritten(rows: Lots, held: Lots, touched: set<string>, x: Lots, y: Lots)
    requires rows == Rounded(held) && forall s :: s in touched ==> Tidy(x, s)
    ensures WriteRows(rows, touched, x) == Rounded(y) <==>
            forall s :: if s in touched then SameStored(x, y, s) else SameStored(held, y, s)
  {
    hide Tidy, HasRow, RowOf, RoundLot;
    var r := WriteRows(rows, touched, x);
    forall s
      ensures s in touched ==> (s in r <==> s in x) && (s in x ==> r[s] == RoundLot(x[s]))
      ensures s !in touched ==> (s in r <==> s in held) && (s in held ==> r[s] == RoundLot(held[s]))
    {
      if s in touched {
        TidyRow(x, s);
      }
    }
    hide WriteRows;
    if forall s :: if s in touched then SameStored(x, y, s) else SameStored(held, y, s) {
      forall s
        ensures s in r <==> s in Rounded(y)
        ensures s in r ==> r[s] == Rounded(y)[s]
      {
        assert if s in touched then SameStored(x, y, s) else SameStored(held, y, s);
      }
      assert r == Rounded(y);
    }
  }

  /** Exactly when no harm is done. The page may be any: the lost batch with others in front, between or behind, or
      without the last of its events. When it has been handled, rows and dead letters are those that the log up to its end
      gives on top of what was handled in front of the batch, just when the page is right. */
  lemma KeptWorkerRightIff(w: World, outcome: Commit, arrivals: seq<Event>, cutoff: int, watermark: int, page: seq<Event>)
    requires Good(w) && Refetches(w, outcome, arrivals, cutoff, watermark, page) && NoUnknownSide(page)
    ensures var r := Finish(Again(w, Flush(outcome), arrivals, cutoff, watermark));
            var log := FoldAll(Replay(w.history), page);
            (r.store.rows == Rounded(log.lots) && r.store.dlq == log.dlq) <==>
            PageIsRight(Replay(w.history).lots, w.worker.lots, page, outcome)
  {
    hide Good, Next, Finish, WriteRows, Touched, Rounded, Tidy, Replay, FoldAll, HandleAll, NoUnknownSide, SameStored, AppliedOnto,
         Flushed, Again;
    var l, once := Replay(w.history), w.worker.lots;
    var again := Again(w, Flush(outcome), arrivals, cutoff, watermark);
    FlushFacts(w, outcome);
    AgainFetches(w, Flush(outcome), arrivals, cutoff, watermark);
    var f, g := HandleAll(once, page), HandleAll(l.lots, page);
    FinishRest(again);
    assert [] + f.applied == f.applied;
    HandledOnTop(l, page);
    SameTail(l.dlq, f.dlq, g.dlq);
    HandledEffect(once, page);
    HandledEffect(l.lots, page);
    if f.dlq == g.dlq {
      SameRejections(once, l.lots, page);
      var held := if outcome == Failed then l.lots else once;
      RowsWritten(again.store.rows, held, Touched(f.applied), f.lots, g.lots);
      forall s | s !in Touched(f.applied)
        ensures SameStored(held, g.lots, s) <==> outcome == Failed || SameStored(f.lots, g.lots, s)
      {
        Unwritten(l.lots, once, f.lots, g.lots, s);
      }
    }
  }

  lemma Unwritten(before: Lots, once: Lots, x: Lots, y: Lots, s: string)
    requires (s in x <==> s in once) && (s in once ==> x[s] == once[s])
    requires (s in y <==> s in before) && (s in before ==> y[s] == before[s])
    ensures SameStored(before, y, s) && (SameStored(once, y, s) <==> SameStored(x, y, s))
  {
    hide RoundLot;
  }

  lemma SameTail<T>(a: seq<T>, b: seq<T>, c: seq<T>)
    ensures a + b == a + c <==> b == c
  {
    if a + b == a + c {
      assert b == (a + b)[|a|..] && c == (a + c)[|a|..];
    }
  }

  // ----- the page that starts with the batch -----

  lemma {:induction false} ReapplyHandles(lots: Lots, events: seq<Event>)
    requires NoUnknownSide(events)
    ensures match Reapply(lots, events)
            case Some(x) => HandleAll(lots, events) == Ledger(x, events, [])
            case None => HandleAll(lots, events).dlq != []
  {
    hide ApplyEvent, NoUnknownSide;
    if events != [] {
      var p, ev := events[..|events| - 1], events[|events| - 1];
      assert events == p + [ev];
      LastIsKnown(HandleAll(lots, p).lots, events);
      ReapplyHandles(lots, p);
    }
  }

  lemma AppliedHandles(l: Ledger, events: seq<Event>, lots: Lots)
    requires AppliedOnto(l, events, lots)
    ensures HandleAll(l.lots, events) == Ledger(lots, events, [])
  {
    HandledOnTop(l, events);
    var h := HandleAll(l.lots, events);
    hide FoldAll, HandleAll;
    SameTail(l.applied, h.applied, events);
    assert l.dlq + [] == l.dlq;
    SameTail(l.dlq, h.dlq, []);
  }

  /** A page that starts with the lost batch is right just when applying the batch once more makes no difference. */
  lemma RightIffInert(l: Ledger, once: Lots, batch: seq<Event>, rest: seq<Event>, outcome: Commit)
    requires AppliedOnto(l, batch, once) && Sorted(batch + rest) && NoUnknownSide(rest)
    ensures PageIsRight(l.lots, once, batch + rest, outcome) <==> InertBefore(once, batch, rest)
  {
    AppliedHasNoUnknownSide(l, batch, once);
    AppliedHandles(l, batch, once);
    hide ApplyEvent, AppliedOnto, Touched, Rounded, HandleAll, Reapply, Sorted, SameStored;
    HandleAllConcat(l.lots, batch, rest);
    HandleAllConcat(once, batch, rest);
    ReapplyHandles(once, batch);
    var f, g := HandleAll(once, batch + rest), HandleAll(l.lots, batch + rest);
    var x := HandleAll(once, rest);
    assert g.dlq == x.dlq && g.lots == x.lots;
    if Reapply(once, batch).Some? {
      var twice := Reapply(once, batch).value;
      assert f.dlq == HandleAll(twice, rest).dlq && f.lots == HandleAll(twice, rest).lots;
      if f.dlq == g.dlq {
        BothKnown(batch, rest);
        SameRejections(once, l.lots, batch + rest);
        TouchedConcat(batch, HandleAll(twice, rest).applied);
        HandledEffect(once, batch + rest);
        HandledEffect(l.lots, batch + rest);
        HandledEffect(l.lots, batch);
        forall s | s !in Touched(f.applied)
          ensures SameStored(f.lots, g.lots, s)
        {
          StoredThrough(l.lots, once, f.lots, g.lots, s);
        }
        SameStoredMeans(f.lots, g.lots);
      }
    } else {
      var h := HandleAll(once, batch);
      HandledFrom(once, batch);
      HandledFrom(once, rest);
      assert h.dlq[0] in h.dlq && f.dlq[0] == h.dlq[0];
      NoneTwice(batch, rest, h.dlq[0].ev);
      assert g.dlq != [] ==> g.dlq[0] in x.dlq;
    }
  }

  lemma BothKnown(a: seq<Event>, b: seq<Event>)
    requires NoUnknownSide(a) && NoUnknownSide(b)
    ensures NoUnknownSide(a + b)
  {
  }

  lemma StoredThrough(before: Lots, once: Lots, x: Lots, y: Lots, s: string)
    requires (s in x <==> s in once) && (s in once ==> x[s] == once[s])
    requires (s in y <==> s in before) && (s in before ==> y[s] == before[s])
    requires (s in once <==> s in before) && (s in before ==> once[s] == before[s])
    ensures SameStored(x, y, s)
  {
    hide RoundLot;
  }

  lemma SameStoredMeans(x: Lots, y: Lots)
    ensures Rounded(x) == Rounded(y) <==> forall s :: SameStored(x, y, s)
  {
    hide RoundLot;
    if forall s :: SameStored(x, y, s) {
      forall s
        ensures s in Rounded(x) <==> s in Rounded(y)
        ensures s in Rounded(x) ==> Rounded(x)[s] == Rounded(y)[s]
      {
        assert SameStored(x, y, s);
      }
      assert Rounded(x) == Rounded(y);
    }
    if Rounded(x) == Rounded(y) {
      forall s
        ensures SameStored(x, y, s)
      {
        assert s in Rounded(x) <==> s in x;
        assert s in Rounded(y) <==> s in y;
      }
    }
  }

  lemma NoneTwice(a: seq<Event>, b: seq<Event>, ev: Event)
    requires Sorted(a + b) && ev in a
    ensures ev !in b
  {
    var i :| 0 <= i < |a| && a[i] == ev;
    var all := a + b;
    forall j | 0 <= j < |b|
      ensures b[j] != ev
    {
      assert all[i] == ev && all[|a| + j] == b[j];
      assert InOrder(all[i], all[|a| + j]);
    }
  }

  /** The usual page: the lost batch, and a rest behind it. */
  lemma SameBatchRightIff(w: World, outcome: Commit, arrivals: seq<Event>, cutoff: int, watermark: int, rest: seq<Event>)
    requires Good(w) && w.worker.Up? && NoUnknownSide(rest)
    requires Refetches(w, outcome, arrivals, cutoff, watermark, w.worker.pending + rest)
    ensures var r := Finish(Again(w, Flush(outcome), arrivals, cutoff, watermark));
            var log := FoldAll(Replay(w.history), w.worker.pending + rest);
            (r.store.rows == Rounded(log.lots) && r.store.dlq == log.dlq) <==> InertBefore(w.worker.lots, w.worker.pending, rest)
  {
    hide Good, Next, Finish, Rounded, Replay, FoldAll, NoUnknownSide, AppliedOnto, Again, InertBefore, PageIsRight, Sorted, Flushed;
    var l := Replay(w.history);
    FlushFacts(w, outcome);
    AgainFetches(w, Flush(outcome), arrivals, cutoff, watermark);
    AppliedHasNoUnknownSide(l, w.worker.pending, w.worker.lots);
    BothKnown(w.worker.pending, rest);
    KeptWorkerRightIff(w, outcome, arrivals, cutoff, watermark, w.worker.pending + rest);
    RightIffInert(l, w.worker.lots, w.worker.pending, rest, outcome);
  }

  /** Where nothing was missed and nothing arrives the page starts with the batch as soon as it is long enough. */
  lemma BatchComesBack(w: World, outcome: Commit, cutoff: int, watermark: int)
    requires Good(w) && Seamless(w) && w.worker.Up? && !w.worker.behind && w.worker.pending != [] && outcome != Committed
    requires |EligibleBatch(Take(Behind(w.store.log, w.store.cursor), PAGE), cutoff, watermark, PAGE)| >= |w.worker.pending|
    ensures var page := EligibleBatch(Take(Behind(w.store.log, w.store.cursor), PAGE), cutoff, watermark, PAGE);
            w.worker.pending <= page && Refetches(w, outcome, [], cutoff, watermark, page)
  {
    hide Good, Behind, Take, Run, Next;
    GoodPage(w);
    FlushFacts(w, outcome);
    AgainFetches(w, Flush(outcome), [], cutoff, watermark);
    var all := Behind(w.store.log, w.store.cursor);
    EligibleIsNext(all, cutoff, watermark);
    hide EligibleBatch, Flushed, Again;
    var page, n := EligibleBatch(Take(all, PAGE), cutoff, watermark, PAGE), |w.worker.pending|;
    NothingArrives(w, Flush(outcome), cutoff, watermark);
    assert w.worker.pending == (w.worker.pending + w.worker.todo)[..n];
    assert page[..n] == all[..n] == w.worker.pending;
  }

  lemma NothingArrives(w: World, failure: Action, cutoff: int, watermark: int)
    ensures Again(w, failure, [], cutoff, watermark).store == Next(w, failure).store
  {
    var kept := Next(w, failure);
    assert Run(kept, Appends([])) == kept;
    hide ApplyEvent, EligibleBatch, Behind, Take, Run;
    assert Next(kept, Fetch(cutoff, watermark)).store == kept.store;
    hide Next;
  }

  /** A worker that is not kept is right: after a crash and a start-up the invariant holds, and its lots are the
      stored rows. */
  lemma RestartIsRight(w: World, outcome: Commit, readable: bool)
    requires Good(w) && w.worker.Up? && !w.worker.behind && w.worker.pending != [] && !w.torn
    ensures var r := Next(Next(Next(w, Flush(outcome)), Crash), Rebuild(readable));
            Good(r) && r.worker.Up? && r.worker.lots == r.store.rows
  {
    hide Good, Loaded, Flushed, ApplyEvent;
    var x := Next(w, Flush(outcome));
    NotTornBy(w, outcome);
    NextKeeps(w, Flush(outcome));
    var y := Next(x, Crash);
    NextKeeps(x, Crash);
    NextKeeps(y, Rebuild(readable));
    LoadedIsRows(y, readable);
  }

  lemma NotTornBy(w: World, outcome: Commit)
    requires w.worker.Up? && w.worker.pending != []
    ensures Next(w, Flush(outcome)).torn == w.torn
  {
    hide WriteRows, Skipped, Handles;
  }

  // ----- a page with an arrival in front of the batch -----

  /** The race of module Hazards up to the arrival. */
  lemma RaceState()
    ensures var w := Run(START, RACE[..5]);
            w.store.log == [EARLIER, LATER] && w.store.cursor == ZERO_CURSOR && w.worker.Up? && w.worker.cur == ZERO_CURSOR &&
            w.worker.pending == [LATER] && w.worker.todo == [] && At(w.worker.lots, "A").qty == 1.0
  {
    var w2 := Next(Next(START, Rebuild(true)), Append(LATER));
    assert w2.store == EMPTY_STORE.(log := [LATER]) && w2.worker == Up(map[], ZERO_CURSOR, [], [], false);
    FetchAndApply(w2, LATER);
    BuyApplies(map[], LATER);
    var w4 := Next(Next(w2, Fetch(5, 0)), ApplyNext);
    hide ApplyEvent;
    assert Next(w4, Append(EARLIER)).store.log == [EARLIER, LATER] by {
      assert Insert([LATER], EARLIER) == [EARLIER] + [LATER];
    }
    assert RACE[..5] == [Rebuild(true), Append(LATER), Fetch(5, 0), ApplyNext, Append(EARLIER)];
    RunFive(START, Rebuild(true), Append(LATER), Fetch(5, 0), ApplyNext, Append(EARLIER));
    hide Run;
  }

  lemma RacePage()
    ensures EligibleBatch(Take(Behind([EARLIER, LATER], ZERO_CURSOR), PAGE), 5, 0, PAGE) == [EARLIER, LATER]
  {
    assert Behind([LATER], ZERO_CURSOR) == [LATER] + Behind([], ZERO_CURSOR);
    assert Behind([EARLIER, LATER], ZERO_CURSOR) == [EARLIER] + Behind([LATER], ZERO_CURSOR);
    assert EligiblePrefix([LATER], 5) == [LATER] + EligiblePrefix([], 5);
    assert EligiblePrefix([EARLIER, LATER], 5) == [EARLIER] + EligiblePrefix([LATER], 5);
  }

  lemma TwoBuys(lots: Lots, a: Event, b: Event)
    requires TradesSymbol(a, "A") && TradesSymbol(b, "A") && a.payload.trade.side == Buy == b.payload.trade.side
    ensures var f := HandleAll(lots, [a] + [b]);
            f.applied == [a] + [b] && At(f.lots, "A").qty == At(lots, "A").qty + a.payload.trade.qty + b.payload.trade.qty
  {
    BuyApplies(lots, a);
    var x := ApplyEvent(lots, a).lots;
    BuyApplies(x, b);
    hide ApplyEvent, HandleAll, FoldEvent;
    HandleFront(lots, a, [b]);
    assert [b] + [] == [b];
    HandleFront(x, b, []);
    NothingHandled(ApplyEvent(x, b).lots);
  }

  /** Two buys of one share each. */
  lemma RaceHandled(lots: Lots)
    ensures var f := HandleAll(lots, [EARLIER, LATER]);
            f.applied == [EARLIER, LATER] && At(f.lots, "A").qty == At(lots, "A").qty + 2.0
  {
    TwoBuys(lots, EARLIER, LATER);
    hide HandleAll;
    assert [EARLIER] + [LATER] == [EARLIER, LATER];
  }

  lemma RaceFold()
    ensures At(Fold([EARLIER, LATER]).lots, "A").qty == 2.0
  {
    RaceHandled(map[]);
    FoldAllIsFold([EARLIER, LATER]);
    hide FoldAll, Fold;
  }

  lemma {:induction false} FoldAllIsFold(events: seq<Event>)
    ensures FoldAll(EMPTY, events) == Fold(events)
  {
    hide FoldEvent;
    if events != [] {
      FoldAllIsFold(events[..|events| - 1]);
    }
  }

  /** The batch comes back behind an event that arrived while it was pending, and is counted twice all the same: three
      shares for two. */
  lemma ArrivalCountsTwice(outcome: Commit)
    requires outcome != Committed
    ensures var again := Again(Run(START, RACE[..5]), Flush(outcome), [], 5, 0);
            again.worker.Up? && again.store.log == again.worker.todo == [EARLIER, LATER] &&
            At(Finish(again).store.rows, "A").qty == 3.0 && At(Fold(again.store.log).lots, "A").qty == 2.0
  {
    RaceState();
    RaceFold();
    RacePage();
    assert |RACE| == 6;
    hide Run, EligibleBatch, Behind, Take, Fold, HandleAll, Finish, RACE, EARLIER, LATER, Next;
    var w := Run(START, RACE[..5]);
    var again := Again(w, Flush(outcome), [], 5, 0);
    FailedFlushKeepsMemory(w, outcome);
    NothingArrives(w, Flush(outcome), 5, 0);
    RaceSorted();
    AgainFetches(w, Flush(outcome), [], 5, 0);
    RaceHandled(w.worker.lots);
    FinishRest(again);
    RaceRow(again.store.rows, HandleAll(w.worker.lots, [EARLIER, LATER]));
  }

  lemma RaceSorted()
    ensures Sorted([EARLIER, LATER]) && NoUnknownSide([EARLIER, LATER])
  {
  }

  lemma RaceRow(rows: Lots, f: Ledger)
    requires f.applied == [EARLIER, LATER] && At(f.lots, "A").qty == 3.0
    ensures At(WriteRows(rows, Touched([] + f.applied), f.lots), "A").qty == 3.0
  {
    assert EARLIER in [] + f.applied;
    assert "A" in Touched([] + f.applied);
    Round8FixesGrid(3.0);
    hide Round8, Touched;
  }

  // ----- what inert batches are like -----

  /** A caller can check something shorter: for trades of at most eight decimals a batch that makes no difference in
      front of a rest, whatever the rest is, is neutral in every symbol. */
  lemma InertIsNeutral(lots: Lots, events: seq<Event>, rest: seq<Event>)
    requires InertBefore(lots, events, rest) && GridQuantities(lots) && EightDecimals(events + rest)
    requires Sorted(rest) && NoUnknownSide(rest)
    ensures Neutral(events)
  {
    hide Reapply, AppliedOnto, HandleAll, IsGrid8, Round8, Rounded, Net, EightDecimals, Sorted, NoUnknownSide;
    var twice := Reapply(lots, events).value;
    ReapplyIsFold(Ledger(lots, [], []), events);
    var f, g := HandleAll(twice, rest), HandleAll(lots, rest);
    SameRejections(twice, lots, rest);
    HandledFrom(lots, rest);
    PartsOnGrid(events, rest, g.applied);
    forall s
      ensures Net(events, s) == 0.0
    {
      BatchAddsNet(Ledger(lots, [], []), events, twice, s);
      HandledAddsNet(twice, rest, s);
      HandledAddsNet(lots, rest, s);
      NetOnGrid(events, s);
      NetOnGrid(g.applied, s);
      Grid8Add(At(lots, s).qty, Net(g.applied, s));
      Grid8Add(At(g.lots, s).qty, Net(events, s));
      RoundedAt(f.lots, s);
      RoundedAt(g.lots, s);
      Round8FixesGrid(At(f.lots, s).qty);
      Round8FixesGrid(At(g.lots, s).qty);
    }
  }

  lemma PartsOnGrid(events: seq<Event>, rest: seq<Event>, part: seq<Event>)
    requires EightDecimals(events + rest) && forall e :: e in part ==> e in rest
    ensures EightDecimals(events) && EightDecimals(part)
  {
    hide IsGrid8;
    assert forall e :: e in events || e in rest ==> e in events + rest;
  }

  /** Quantities change by the net of what was applied. */
  lemma {:induction false} HandledAddsNet(lots: Lots, events: seq<Event>, s: string)
    ensures var h := HandleAll(lots, events); At(h.lots, s).qty == At(lots, s).qty + Net(h.applied, s)
  {
    if events != [] {
      var p, ev := events[..|events| - 1], events[|events| - 1];
      HandledAddsNet(lots, p, s);
      var x := HandleAll(lots, p);
      assert HandleAll(lots, events) == FoldEvent(x, ev);
      hide HandleAll;
      FoldEventAt(x, ev, s);
      assert (x.applied + [ev])[..|x.applied|] == x.applied;
      hide Bought, Worth;
      if ApplyEvent(x.lots, ev).Applied? {
        OnlyAcceptedSells(x.lots, ev, s);
      }
      hide ApplyEvent;
    }
  }

  lemma {:induction false} NetOnGrid(events: seq<Event>, s: string)
    requires EightDecimals(events)
    ensures IsGrid8(Net(events, s))
  {
    if events == [] {
      assert IsGrid8(0.0);
    } else {
      var p, ev := events[..|events| - 1], events[|events| - 1];
      assert ev in events;
      assert forall e :: e in p ==> e in events;
      NetOnGrid(p, s);
      hide IsGrid8;
      if Buys(ev, s) {
        Grid8Add(Net(p, s), ev.payload.trade.qty);
      } else if Sells(ev, s) {
        Grid8Sub(Net(p, s), ev.payload.trade.qty);
      }
    }
  }

  function SellEvent(time: int, id: nat, key: string, qty: real, price: real): Event
    requires id != 0 && qty > 0.0 && price > 0.0
  {
    Envelope(time, id, key, TradeExecuted(TradePayload("A", Sell, qty, price)))
  }

  const ROUND_TRIP: seq<Event> := [BuyEvent(1, 1, "k1", 10.0), SellEvent(2, 2, "k2", 10.0, 6.0)]

  /** Neutral is not enough: buying ten at five and selling them at six realizes ten each time. */
  lemma NeutralIsNotInert()
    ensures Neutral(ROUND_TRIP)
    ensures Reapply(map[], ROUND_TRIP) == Some(map["A" := PositionLot(0.0, 0.0, 10.0)])
    ensures Reapply(map["A" := PositionLot(0.0, 0.0, 10.0)], ROUND_TRIP) == Some(map["A" := PositionLot(0.0, 0.0, 20.0)])
    ensures !Inert(map["A" := PositionLot(0.0, 0.0, 10.0)], ROUND_TRIP)
  {
    var buy, sell := BuyEvent(1, 1, "k1", 10.0), SellEvent(2, 2, "k2", 10.0, 6.0);
    assert ROUND_TRIP[..1] == [buy] && [buy][..0] == [];
    forall s
      ensures Net(ROUND_TRIP, s) == 0.0
    {
      assert Net(ROUND_TRIP[..1], s) == if s == "A" then 10.0 else 0.0;
    }
    RoundTripOn(map[], 0.0);
    RoundTripOn(map["A" := PositionLot(0.0, 0.0, 10.0)], 10.0);
    TwoApplied(map[], buy, sell);
    TwoApplied(map["A" := PositionLot(0.0, 0.0, 10.0)], buy, sell);
    Round8FixesGrid(10.0);
    Round8FixesGrid(20.0);
    InertMeans(map["A" := PositionLot(0.0, 0.0, 10.0)], ROUND_TRIP);
    hide Net, ApplyEvent, Reapply, Round8, Inert;
    assert Rounded(map["A" := PositionLot(0.0, 0.0, 20.0)])["A"].realized == 20.0;
    assert Rounded(map["A" := PositionLot(0.0, 0.0, 10.0)])["A"].realized == 10.0;
  }

  lemma TwoApplied(lots: Lots, a: Event, b: Event)
    requires ApplyEvent(lots, a).Applied?
    ensures Reapply(lots, [a, b]) ==
            var r := ApplyEvent(ApplyEvent(lots, a).lots, b); if r.Applied? then Some(r.lots) else None
  {
    hide ApplyEvent;
    assert [a, b][..1] == [a] && [a][..0] == [];
    assert Reapply(lots, []) == Some(lots);
    assert Reapply(lots, [a]) == Some(ApplyEvent(lots, a).lots);
  }

  lemma TenAtFive()
    ensures Div16(50.0, 10.0) == 5.0
  {
    NearestFixesIntegers(50000000000000000);
  }

  lemma RoundTripOn(lots: Lots, realized: real)
    requires At(lots, "A") == PositionLot(0.0, 0.0, realized) && realized >= 0.0
    requires forall s :: s in lots ==> s == "A"
    ensures var held := ApplyEvent(lots, BuyEvent(1, 1, "k1", 10.0));
            held.Applied? &&
            ApplyEvent(held.lots, SellEvent(2, 2, "k2", 10.0, 6.0)) == Applied(map["A" := PositionLot(0.0, 0.0, realized + 10.0)])
  {
    hide Bought, Sold;
    BoughtTen(realized);
    SoldTen(realized);
  }

  lemma BoughtTen(realized: real)
    ensures Bought(PositionLot(0.0, 0.0, realized), 10.0, 5.0) == PositionLot(10.0, 5.0, realized)
  {
    TenAtFive();
    hide Div16;
    var lot := PositionLot(0.0, 0.0, realized);
    assert CostAfter(lot, 10.0, 5.0) == 50.0 && QtyAfter(lot, 10.0) == 10.0;
  }

  lemma SoldTen(realized: real)
    ensures Sold(PositionLot(10.0, 5.0, realized), 10.0, 6.0) == PositionLot(0.0, 0.0, realized + 10.0)
  {
    assert Gain(PositionLot(10.0, 5.0, realized), 10.0, 6.0) == 10.0;
    hide Gain;
  }
}
