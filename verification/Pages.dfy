/** Handling a whole page: the worker's steps against the fold of the page's events.

    Nothing here asks how the worker came by its lots, so it holds of a worker that was kept after a failure too. */
module Pages {
  import opened Positions
  import opened Events
  import opened EventTable
  import opened History
  import opened Watermark
  import opened Partition
  import opened Refinement
  import opened Arrival

  // ----- folding a page -----

  /** What handling events in order makes of the lots: rejected trades are recorded and skipped. */
  function HandleAll(lots: Lots, events: seq<Event>): Ledger {
    FoldAll(Ledger(lots, [], []), events)
  }

  /** Ingestion refuses trades of an unknown side. */
  predicate NoUnknownSide(events: seq<Event>) {
    forall e :: e in events ==> e.payload.TradeExecuted? ==> e.payload.trade.side != UnknownSide
  }

  lemma KnownSide(lots: Lots, ev: Event)
    requires ev.payload.TradeExecuted? ==> ev.payload.trade.side != UnknownSide
    ensures !ApplyEvent(lots, ev).InvalidSide?
  {
    hide Bought, Sold;
  }

  lemma FirstIsKnown(lots: Lots, ev: Event, rest: seq<Event>)
    requires NoUnknownSide([ev] + rest)
    ensures !ApplyEvent(lots, ev).InvalidSide? && NoUnknownSide(rest)
  {
    assert ev in [ev] + rest;
    assert forall e :: e in rest ==> e in [ev] + rest;
    KnownSide(lots, ev);
    hide ApplyEvent;
  }

  lemma LastIsKnown(lots: Lots, events: seq<Event>)
    requires NoUnknownSide(events) && events != []
    ensures !ApplyEvent(lots, events[|events| - 1]).InvalidSide? && NoUnknownSide(events[..|events| - 1])
  {
    assert events[|events| - 1] in events;
    assert forall e :: e in events[..|events| - 1] ==> e in events;
    KnownSide(lots, events[|events| - 1]);
    hide ApplyEvent;
  }

  lemma {:induction false} FoldAllConcat(l: Ledger, a: seq<Event>, b: seq<Event>)
    ensures FoldAll(l, a + b) == FoldAll(FoldAll(l, a), b)
  {
    hide FoldEvent;
    if b == [] {
      assert a + b == a;
    } else {
      FoldAllConcat(l, a, b[..|b| - 1]);
      assert (a + b)[..|a + b| - 1] == a + b[..|b| - 1];
    }
  }

  /** A fold's lots do not depend on what was recorded before, and its records come behind that. */
  lemma {:induction false} HandledOnTop(l: Ledger, events: seq<Event>)
    ensures var h := HandleAll(l.lots, events);
            FoldAll(l, events) == Ledger(h.lots, l.applied + h.applied, l.dlq + h.dlq)
  {
    hide ApplyEvent;
    if events != [] {
      HandledOnTop(l, events[..|events| - 1]);
    }
  }

  lemma HandleAllConcat(lots: Lots, a: seq<Event>, b: seq<Event>)
    ensures var x := HandleAll(lots, a);
            var y := HandleAll(x.lots, b);
            HandleAll(lots, a + b) == Ledger(y.lots, x.applied + y.applied, x.dlq + y.dlq)
  {
    FoldAllConcat(Ledger(lots, [], []), a, b);
    HandledOnTop(HandleAll(lots, a), b);
    hide FoldAll;
  }

  lemma HandleOne(lots: Lots, ev: Event)
    ensures HandleAll(lots, [ev]) == FoldEvent(Ledger(lots, [], []), ev)
  {
    assert [ev] == [] + [ev];
    NothingHandled(lots);
    FoldAllSnoc(Ledger(lots, [], []), [], ev);
    hide FoldEvent, FoldAll;
  }

  lemma NothingHandled(lots: Lots)
    ensures HandleAll(lots, []) == Ledger(lots, [], [])
  {
  }

  /** Every dead letter is of one of the events, and so is everything that was applied. */
  lemma {:induction false} HandledFrom(lots: Lots, events: seq<Event>)
    ensures forall x :: x in HandleAll(lots, events).dlq ==> x.ev in events
    ensures forall e :: e in HandleAll(lots, events).applied ==> e in events
  {
    hide ApplyEvent;
    if events != [] {
      HandledFrom(lots, events[..|events| - 1]);
      assert events == events[..|events| - 1] + [events[|events| - 1]];
    }
  }

  /** The applied symbols are tidy afterwards, the others unchanged. */
  lemma {:induction false} HandledEffect(lots: Lots, events: seq<Event>)
    ensures var h := HandleAll(lots, events);
            (forall s :: s in Touched(h.applied) ==> Tidy(h.lots, s)) &&
            (forall s :: s !in Touched(h.applied) ==> (s in h.lots <==> s in lots) && (s in lots ==> h.lots[s] == lots[s]))
  {
    hide ApplyEvent, Tidy, Touched;
    if events == [] {
      TouchedNothing();
    } else {
      var p, ev := events[..|events| - 1], events[|events| - 1];
      HandledEffect(lots, p);
      var x := HandleAll(lots, p);
      if ApplyEvent(x.lots, ev).Applied? {
        ApplyEventEffect(x.lots, ev);
        TouchedSnoc(x.applied, ev);
        TidyKept(x.lots, ApplyEvent(x.lots, ev).lots, ev);
      }
    }
  }

  lemma TouchedNothing()
    ensures Touched([]) == {}
  {
  }

  lemma TidyKept(x: Lots, y: Lots, ev: Event)
    requires forall s :: s !in Touched([ev]) ==> (s in y <==> s in x) && (s in x ==> y[s] == x[s])
    ensures forall s :: s !in Touched([ev]) && Tidy(x, s) ==> Tidy(y, s)
  {
    hide Touched, HasRow;
  }

  lemma AppendedOther<T>(a: seq<T>, b: seq<T>, x: T)
    requires x !in b
    ensures a + [x] != b
  {
    assert (a + [x])[|a|] == x;
  }

  /** The events that were applied follow from those that were rejected, when no event comes twice. */
  lemma {:induction false} SameRejections(x: Lots, y: Lots, events: seq<Event>)
    requires Sorted(events) && NoUnknownSide(events) && HandleAll(x, events).dlq == HandleAll(y, events).dlq
    ensures HandleAll(x, events).applied == HandleAll(y, events).applied
  {
    hide ApplyEvent, Sorted, NoUnknownSide;
    if events != [] {
      var p, ev := events[..|events| - 1], events[|events| - 1];
      assert events == p + [ev];
      LastIsNew(events);
      var f, g := HandleAll(x, p), HandleAll(y, p);
      LastIsKnown(f.lots, events);
      LastIsKnown(g.lots, events);
      HandledFrom(x, p);
      HandledFrom(y, p);
      var letter := DeadLetter(ev, PositionUnderflow);
      if ApplyEvent(f.lots, ev).Applied? && !ApplyEvent(g.lots, ev).Applied? {
        AppendedOther(g.dlq, f.dlq, letter);
      } else if !ApplyEvent(f.lots, ev).Applied? && ApplyEvent(g.lots, ev).Applied? {
        AppendedOther(f.dlq, g.dlq, letter);
      } else {
        if !ApplyEvent(f.lots, ev).Applied? {
          assert f.dlq == (f.dlq + [letter])[..|f.dlq|] && g.dlq == (g.dlq + [letter])[..|g.dlq|];
        }
        SameRejections(x, y, p);
      }
    }
  }

  lemma LastIsNew(events: seq<Event>)
    requires Sorted(events) && events != []
    ensures events[|events| - 1] !in events[..|events| - 1] && Sorted(events[..|events| - 1])
  {
    var n := |events| - 1;
    forall i | 0 <= i < n
      ensures events[i] != events[n]
    {
      assert InOrder(events[i], events[n]);
    }
  }

  // ----- finishing a page -----

  /** The rest of a page, when nothing fails and nothing is stale. */
  function Finish(w: World): World
    requires w.worker.Up?
    decreases |w.worker.todo|, |w.worker.pending|
  {
    var wk := w.worker;
    if wk.todo == [] then if wk.pending == [] then w else Next(w, Flush(Committed))
    else
      match ApplyEvent(wk.lots, wk.todo[0])
      case Applied(_) => Finish(Next(w, ApplyNext))
      case Underflow => if wk.pending != [] then Finish(Next(w, Flush(Committed))) else Finish(Next(w, DeadLetterNext(false, Committed)))
      case InvalidSide => if wk.pending != [] then Finish(Next(w, Flush(Committed))) else Next(w, Refuse)
  }

  lemma FlushCommitted(w: World)
    requires w.worker.Up? && w.worker.pending != []
    ensures var r := Next(w, Flush(Committed));
            r.worker.Up? && r.worker.pending == [] && r.worker.todo == w.worker.todo && r.worker.lots == w.worker.lots &&
            r.store.dlq == w.store.dlq && r.store.rows == WriteRows(w.store.rows, Touched(w.worker.pending), w.worker.lots) &&
            r.history == w.history + Handles(w.worker.pending)
  {
    hide WriteRows, Skipped, Handles, Touched;
  }

  lemma NothingToWrite(rows: Lots, lots: Lots)
    ensures Touched([]) == {} && WriteRows(rows, {}, lots) == rows
  {
    hide HasRow, RowOf;
  }

  /** Rows that are written again are written last, and the others do not change in between. */
  lemma WriteTwice(rows: Lots, a: set<string>, x: Lots, b: set<string>, y: Lots)
    requires forall s :: s in a && s !in b ==> At(x, s) == At(y, s)
    ensures WriteRows(WriteRows(rows, a, x), b, y) == WriteRows(rows, a + b, y)
  {
    hide HasRow, RowOf, At;
    var once := WriteRows(rows, a, x);
    var l, r := WriteRows(once, b, y), WriteRows(rows, a + b, y);
    forall s
      ensures s in l <==> s in r
      ensures s in l ==> l[s] == r[s]
    {
      if s !in b {
        assert s in l <==> s in once;
        assert s in a ==> At(x, s) == At(y, s);
      }
    }
    assert l == r;
  }

  lemma TouchedConcat(a: seq<Event>, b: seq<Event>)
    ensures Touched(a + b) == Touched(a) + Touched(b)
  {
    assert forall e :: e in a + b <==> e in a || e in b;
  }

  lemma SameAtAll(x: Lots, y: Lots, touched: set<string>)
    requires forall s :: s !in touched ==> (s in y <==> s in x) && (s in x ==> y[s] == x[s])
    ensures forall s :: s !in touched ==> At(x, s) == At(y, s)
  {
  }

  /** Finishing a page writes the rows of what was pending and of what is applied, and records what is rejected. */
  lemma {:induction false} FinishRest(w: World)
    requires w.worker.Up? && NoUnknownSide(w.worker.todo)
    ensures var wk, r := w.worker, Finish(w);
            var f := HandleAll(wk.lots, wk.todo);
            r.store.rows == WriteRows(w.store.rows, Touched(wk.pending + f.applied), f.lots) && r.store.dlq == w.store.dlq + f.dlq
    decreases |w.worker.todo|, |w.worker.pending|
  {
    hide ApplyEvent, WriteRows, Touched, HandleAll, Next, Finish, FoldEvent;
    var wk := w.worker;
    NothingToWrite(w.store.rows, wk.lots);
    if wk.todo == [] {
      NothingHandled(wk.lots);
      FinishEmpty(w);
      assert wk.pending + [] == wk.pending && w.store.dlq + [] == w.store.dlq;
    } else {
      var ev, rest := wk.todo[0], wk.todo[1..];
      assert wk.todo == [ev] + rest;
      FirstIsKnown(wk.lots, ev, rest);
      var f := HandleAll(wk.lots, wk.todo);
      HandleFront(wk.lots, ev, rest);
      if ApplyEvent(wk.lots, ev).Applied? {
        FinishApply(w);
        FinishRest(AppliedFirst(w, ev));
        assert wk.pending + f.applied == (wk.pending + [ev]) + HandleAll(ApplyEvent(wk.lots, ev).lots, rest).applied;
      } else if wk.pending != [] {
        FinishFlush(w);
        FinishRest(Next(w, Flush(Committed)));
        HandledEffect(wk.lots, wk.todo);
        SameAtAll(wk.lots, f.lots, Touched(f.applied));
        TouchedConcat(wk.pending, f.applied);
        assert [] + f.applied == f.applied;
        WriteTwice(w.store.rows, Touched(wk.pending), wk.lots, Touched(f.applied), f.lots);
      } else {
        FinishLetter(w);
        FinishRest(Next(w, DeadLetterNext(false, Committed)));
        assert wk.pending + f.applied == [] + HandleAll(wk.lots, rest).applied;
      }
    }
  }

  lemma HandleFront(lots: Lots, ev: Event, rest: seq<Event>)
    ensures var f, r := HandleAll(lots, [ev] + rest), ApplyEvent(lots, ev);
            (r.Applied? ==> var h := HandleAll(r.lots, rest); f == Ledger(h.lots, [ev] + h.applied, h.dlq)) &&
            (r.Underflow? ==> var h := HandleAll(lots, rest);
                              f == Ledger(h.lots, h.applied, [DeadLetter(ev, PositionUnderflow)] + h.dlq))
  {
    hide ApplyEvent, HandleAll;
    HandleAllConcat(lots, [ev], rest);
    HandleOne(lots, ev);
    assert forall h: seq<Event> :: [] + h == h;
    assert forall h: seq<DeadLetter> :: [] + h == h;
  }

  lemma FinishEmpty(w: World)
    requires w.worker.Up? && w.worker.todo == []
    ensures w.worker.pending == [] ==> Finish(w) == w
    ensures w.worker.pending != [] ==>
              var r := Finish(w);
              r.store.dlq == w.store.dlq && r.store.rows == WriteRows(w.store.rows, Touched(w.worker.pending), w.worker.lots) &&
              r.history == w.history + Handles(w.worker.pending)
  {
    if w.worker.pending != [] {
      FlushCommitted(w);
    }
    hide Next;
  }

  /** The flush in front of a rejected trade. */
  lemma FinishFlush(w: World)
    requires w.worker.Up? && w.worker.pending != [] && w.worker.todo != [] && !ApplyEvent(w.worker.lots, w.worker.todo[0]).Applied?
    ensures var r := Next(w, Flush(Committed));
            r.worker.Up? && Finish(w) == Finish(r) && r.worker.pending == [] && r.worker.todo == w.worker.todo &&
            r.worker.lots == w.worker.lots && r.store.dlq == w.store.dlq && r.history == w.history + Handles(w.worker.pending) &&
            r.store.rows == WriteRows(w.store.rows, Touched(w.worker.pending), w.worker.lots)
  {
    hide ApplyEvent, WriteRows, Touched, Handles;
    FlushCommitted(w);
    hide Next;
  }

  /** A rejected trade with nothing pending. */
  lemma FinishLetter(w: World)
    requires w.worker.Up? && w.worker.pending == [] && w.worker.todo != [] && ApplyEvent(w.worker.lots, w.worker.todo[0]).Underflow?
    ensures var ev, r := w.worker.todo[0], Next(w, DeadLetterNext(false, Committed));
            r.worker.Up? && Finish(w) == Finish(r) && r.worker.pending == [] && r.worker.todo == w.worker.todo[1..] &&
            r.worker.lots == w.worker.lots && r.store.dlq == w.store.dlq + [DeadLetter(ev, PositionUnderflow)] &&
            r.store.rows == w.store.rows && EventsOf(r.history) == EventsOf(w.history) + [ev]
  {
    hide ApplyEvent, Skipped, EventsOf;
    LetterHandled(w);
  }

  /** The worker when the first event of the page has been applied. */
  function AppliedFirst(w: World, ev: Event): World
    requires w.worker.Up? && w.worker.todo != [] && ApplyEvent(w.worker.lots, ev).Applied?
  {
    w.(worker := w.worker.(
         lots := ApplyEvent(w.worker.lots, ev).lots, pending := w.worker.pending + [ev], todo := w.worker.todo[1..]))
  }

  lemma FinishApply(w: World)
    requires w.worker.Up? && w.worker.todo != [] && ApplyEvent(w.worker.lots, w.worker.todo[0]).Applied?
    ensures Finish(w) == Finish(AppliedFirst(w, w.worker.todo[0]))
  {
    hide ApplyEvent;
  }

  /** Finishing a page handles exactly what was pending and the page. */
  lemma {:induction false} FinishHandlesAll(w: World)
    requires w.worker.Up? && NoUnknownSide(w.worker.todo)
    ensures EventsOf(Finish(w).history) == EventsOf(w.history) + (w.worker.pending + w.worker.todo)
    decreases |w.worker.todo|, |w.worker.pending|
  {
    hide ApplyEvent, WriteRows, Touched, Handles, EventsOf, Replay, Next, Finish, WithoutRestarts;
    var wk := w.worker;
    ReplayHandles(w.history, wk.pending);
    if wk.todo == [] {
      FinishEmpty(w);
      assert wk.pending + wk.todo == wk.pending;
      assert wk.pending == [] ==> EventsOf(w.history) + wk.pending == EventsOf(w.history);
    } else {
      var ev, rest := wk.todo[0], wk.todo[1..];
      assert wk.todo == [ev] + rest;
      FirstIsKnown(wk.lots, ev, rest);
      hide NoUnknownSide;
      if ApplyEvent(wk.lots, ev).Applied? {
        FinishApply(w);
        FinishHandlesAll(AppliedFirst(w, ev));
        ShiftOne(wk.pending, ev, rest);
      } else if wk.pending != [] {
        FinishFlush(w);
        FinishHandlesAll(Next(w, Flush(Committed)));
        Shift(EventsOf(w.history), wk.pending, wk.todo);
      } else {
        FinishLetter(w);
        FinishHandlesAll(Next(w, DeadLetterNext(false, Committed)));
        Shift(EventsOf(w.history), [ev], rest);
        assert [] + wk.todo == wk.todo;
      }
    }
  }

  lemma Shift<T>(h: seq<T>, a: seq<T>, b: seq<T>)
    ensures h + a + ([] + b) == h + (a + b)
  {
  }

  lemma ShiftOne<T>(a: seq<T>, x: T, b: seq<T>)
    ensures (a + [x]) + b == a + ([x] + b)
  {
  }

  lemma LetterHandled(w: World)
    requires Enabled(w, DeadLetterNext(false, Committed))
    ensures EventsOf(Next(w, DeadLetterNext(false, Committed)).history) == EventsOf(w.history) + [w.worker.todo[0]]
  {
    ReplaySnoc(w.history, Handled(w.worker.todo[0], false));
    hide ApplyEvent, Skipped, Replay, EventsOf;
  }

  // ----- fetching again -----

  function Appends(arrivals: seq<Event>): seq<Action> {
    seq(|arrivals|, i requires 0 <= i < |arrivals| => Append(arrivals[i]))
  }

  /** A worker that was told of a failure is kept; it fetches again after whatever has arrived. */
  function Again(w: World, failure: Action, arrivals: seq<Event>, cutoff: int, watermark: int): World {
    Next(Run(Next(w, failure), Appends(arrivals)), Fetch(cutoff, watermark))
  }

  lemma AppendKeepsRest(w: World, ev: Event)
    requires Sorted(w.store.log)
    ensures var r := Next(w, Append(ev));
            r.worker == w.worker && r.history == w.history && r.torn == w.torn && Sorted(r.store.log) &&
            r.store == w.store.(log := r.store.log)
  {
    hide Insert, Sorted;
    if !exists e :: e in w.store.log && Clash(e, ev) {
      forall e | e in w.store.log
        ensures CursorOf(e) != CursorOf(ev)
      {
        assert !Clash(e, ev);
      }
      InsertKeepsOrder(w.store.log, ev);
    }
  }

  /** Arrivals change the log only. */
  lemma {:induction false} AppendsKeepRest(w: World, arrivals: seq<Event>)
    requires Sorted(w.store.log)
    ensures var r := Run(w, Appends(arrivals));
            r.worker == w.worker && r.history == w.history && r.torn == w.torn && Sorted(r.store.log) &&
            r.store == w.store.(log := r.store.log)
  {
    hide Next, Sorted;
    if arrivals != [] {
      var p := arrivals[..|arrivals| - 1];
      AppendsKeepRest(w, p);
      assert Appends(arrivals)[..|arrivals| - 1] == Appends(p);
      AppendKeepsRest(Run(w, Appends(p)), arrivals[|arrivals| - 1]);
    }
  }

  /** The page that is fetched again is the next one behind the worker's own cursor. */
  lemma AgainFetches(w: World, failure: Action, arrivals: seq<Event>, cutoff: int, watermark: int)
    requires Sorted(w.store.log) && w.worker.Up?
    requires var kept := Next(w, failure); kept.worker == Abandon(w.worker, true) && kept.store.log == w.store.log
    ensures var kept, r := Next(w, failure), Again(w, failure, arrivals, cutoff, watermark);
            r.worker.Up? && r.worker.lots == w.worker.lots && r.worker.pending == [] && Sorted(r.worker.todo) && r.torn &&
            r.worker.todo == EligibleBatch(Take(Behind(r.store.log, w.worker.cur), PAGE), cutoff, watermark, PAGE) &&
            r.store == kept.store.(log := r.store.log) && r.history == kept.history
  {
    hide Next, EligibleBatch, Take, Behind, Run, Sorted;
    AppendsKeepRest(Next(w, failure), arrivals);
    var x := Run(Next(w, failure), Appends(arrivals));
    FetchAgain(x, cutoff, watermark);
    PageSorted(x.store.log, w.worker.cur, cutoff, watermark);
  }

  lemma FetchAgain(x: World, cutoff: int, watermark: int)
    requires x.worker.Up? && x.worker.todo == [] && x.worker.pending == [] && x.worker.behind
    ensures var r := Next(x, Fetch(cutoff, watermark));
            r == x.(worker := x.worker.(todo := r.worker.todo, behind := false), torn := true) &&
            r.worker.todo == EligibleBatch(Take(Behind(x.store.log, x.worker.cur), PAGE), cutoff, watermark, PAGE)
  {
    hide EligibleBatch, Take, Behind;
  }

  lemma PageSorted(log: seq<Event>, cur: Cursor, cutoff: int, watermark: int)
    requires Sorted(log)
    ensures Sorted(EligibleBatch(Take(Behind(log, cur), PAGE), cutoff, watermark, PAGE))
  {
    BehindFacts(log, cur);
    var all := Behind(log, cur);
    hide Behind, EligibleBatch, Take;
    var page := EligibleBatch(Take(all, PAGE), cutoff, watermark, PAGE);
    EligibleIsNext(all, cutoff, watermark);
    assert forall i :: 0 <= i < |page| ==> page[i] == all[i];
  }
}
