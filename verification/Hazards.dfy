/** Where the restart invariant fails in the code as written, with the exact condition for each case. */
module Hazards {
  import opened Decimals
  import opened Positions
  import opened Events
  import opened EventTable
  import opened History
  import opened Accounting
  import opened Watermark
  import opened Partition
  import opened Refinement

  lemma RunSnoc(w: World, actions: seq<Action>, a: Action)
    ensures Run(w, actions + [a]) == Next(Run(w, actions), a)
  {
    assert (actions + [a])[..|actions|] == actions;
  }

  function BuyEvent(time: int, id: nat, key: string, qty: real): Event
    requires id != 0 && qty > 0.0
  {
    Envelope(time, id, key, TradeExecuted(TradePayload("A", Buy, qty, 5.0)))
  }

  /** A buy is always applied, and adds its quantity. */
  lemma BuyApplies(lots: Lots, ev: Event)
    requires ev.payload.TradeExecuted? && ev.payload.trade.side == Buy
    ensures ApplyEvent(lots, ev).Applied?
    ensures var s := ev.payload.trade.symbol;
            At(ApplyEvent(lots, ev).lots, s).qty == At(lots, s).qty + ev.payload.trade.qty
  {
    hide Div16, Worth;
  }

  // ----- a worker kept after a failed flush -----

  /** What a batch adds to the quantity held in s when all of it is applied. */
  function Net(events: seq<Event>, s: string): real {
    if events == [] then 0.0
    else
      var ev := events[|events| - 1];
      Net(events[..|events| - 1], s) +
      if Buys(ev, s) then ev.payload.trade.qty else if Sells(ev, s) then -ev.payload.trade.qty else 0.0
  }

  lemma {:induction false} BatchAddsNet(l: Ledger, events: seq<Event>, lots: Lots, s: string)
    requires AppliedOnto(l, events, lots)
    ensures At(lots, s).qty == At(l.lots, s).qty + Net(events, s)
  {
    if events != [] {
      AppliedOntoPrefix(l, events, lots);
      var p, ev := events[..|events| - 1], events[|events| - 1];
      var x := FoldAll(l, p);
      BatchAddsNet(l, p, x.lots, s);
      FoldEventAt(x, ev, s);
      hide Bought, Worth, AppliedOnto;
      OnlyAcceptedSells(x.lots, ev, s);
      hide ApplyEvent;
    }
  }

  lemma OnlyAcceptedSells(lots: Lots, ev: Event, s: string)
    requires ApplyEvent(lots, ev).Applied?
    ensures Sells(ev, s) ==> ev.payload.trade.qty <= At(lots, s).qty
  {
    hide Bought;
  }

  /** The batch changes no quantity. */
  ghost predicate Neutral(events: seq<Event>) {
    forall s :: Net(events, s) == 0.0
  }

  /** Right after a failed flush the memory of a kept worker holds the quantities of the committed history
      exactly when the batch it could not flush was neutral in every symbol. What fetching the batch again
      does is in module KeptWorker. */
  lemma KeptWorkerAgreesIff(w: World)
    requires Good(w) && w.worker.Up? && !w.worker.behind && w.worker.pending != []
    ensures var kept := Next(w, Flush(Failed));
            kept.worker.Up? && kept.worker.behind && kept.store == w.store && kept.history == w.history &&
            (SameQuantities(kept.worker.lots, Replay(kept.history).lots) <==> Neutral(w.worker.pending))
  {
    var l := Replay(w.history);
    forall s
      ensures At(w.worker.lots, s).qty == At(l.lots, s).qty + Net(w.worker.pending, s)
    {
      BatchAddsNet(l, w.worker.pending, w.worker.lots, s);
    }
    var kept := Next(w, Flush(Failed));
    assert kept.worker.lots == w.worker.lots && kept.history == w.history;
    hide Good, Replay, Net, Next;
    if SameQuantities(kept.worker.lots, l.lots) {
      forall s
        ensures Net(w.worker.pending, s) == 0.0
      {
        assert At(kept.worker.lots, s).qty == At(l.lots, s).qty;
      }
      assert Neutral(w.worker.pending);
    }
    if Neutral(w.worker.pending) {
      assert SameQuantities(kept.worker.lots, l.lots);
    }
  }

  const TEN_SHARES: Event := BuyEvent(1, 1, "k1", 10.0)

  /** The first flush is reported as failed, and the worker goes on. */
  function KeptRun(outcome: Commit): seq<Action> {
    [Rebuild(true), Append(TEN_SHARES), Fetch(1, 0), ApplyNext, Flush(outcome)]
    + [Fetch(1, 0), ApplyNext, Flush(Committed)]
  }

  lemma OneEventPage(ev: Event)
    ensures EligibleBatch(Take(Behind([ev], ZERO_CURSOR), PAGE), ev.time, 0, PAGE) == [ev]
  {
    assert Behind([ev], ZERO_CURSOR) == [ev] + Behind([], ZERO_CURSOR);
    assert EligiblePrefix([ev], ev.time) == [ev] + EligiblePrefix([], ev.time);
  }

  /** One page of one buy, applied in memory by an idle worker. */
  lemma FetchAndApply(w: World, ev: Event)
    requires w.store.log == [ev] && w.worker.Up? && w.worker.cur == ZERO_CURSOR
    requires w.worker.todo == [] && w.worker.pending == []
    requires ev.payload.TradeExecuted? && ev.payload.trade.side == Buy
    ensures var r := Next(Next(w, Fetch(ev.time, 0)), ApplyNext);
            r.store == w.store && r.torn == (w.torn || w.worker.behind) &&
            r.worker == Up(ApplyEvent(w.worker.lots, ev).lots, ZERO_CURSOR, [], [ev], false)
  {
    OneEventPage(ev);
    BuyApplies(w.worker.lots, ev);
    hide ApplyEvent, EligibleBatch, Behind, Take;
    assert [] + [ev] == [ev];
  }

  /** Whether the transaction failed or only its acknowledgement did, the worker keeps its memory. */
  lemma FailedFlushKeepsMemory(w: World, outcome: Commit)
    requires w.worker.Up? && w.worker.pending != [] && outcome != Committed
    ensures var r := Next(w, Flush(outcome));
            r.worker == w.worker.(todo := [], pending := [], behind := true) && r.torn == w.torn &&
            r.store.log == w.store.log && r.store.dlq == w.store.dlq
  {
    hide WriteRows, Skipped, Handles, ApplyEvent;
  }

  /** The page that could not be flushed is fetched and applied once more. */
  lemma AppliedTwice(w: World, ev: Event, outcome: Commit)
    requires outcome != Committed && w.store.log == [ev] && w.worker == Up(map[], ZERO_CURSOR, [], [], false)
    requires ev.payload.TradeExecuted? && ev.payload.trade.side == Buy
    ensures var kept := Next(Next(Next(w, Fetch(ev.time, 0)), ApplyNext), Flush(outcome));
            var r := Next(Next(kept, Fetch(ev.time, 0)), ApplyNext);
            r.torn && r.store.log == w.store.log && r.worker.Up? && r.worker.pending == [ev] &&
            At(r.worker.lots, ev.payload.trade.symbol).qty == ev.payload.trade.qty + ev.payload.trade.qty
  {
    FetchAndApply(w, ev);
    BuyApplies(map[], ev);
    hide Next, ApplyEvent;
    var w4 := Next(Next(w, Fetch(ev.time, 0)), ApplyNext);
    FailedFlushKeepsMemory(w4, outcome);
    var w5 := Next(w4, Flush(outcome));
    FetchAndApply(w5, ev);
    BuyApplies(w5.worker.lots, ev);
  }

  /** A single buy of ten shares, whose first flush is reported as failed while the worker is kept, ends up as
      twenty shares in the projection, whether that transaction failed or had committed. */
  lemma KeptWorkerCountsTwice(outcome: Commit)
    requires outcome != Committed
    ensures var w := Run(START, KeptRun(outcome));
            w.torn && w.store.log == [TEN_SHARES] && w.store.cursor == CursorOf(TEN_SHARES) &&
            At(w.store.rows, "A").qty == 20.0 && At(Fold(w.store.log).lots, "A").qty == 10.0
  {
    var ev := TEN_SHARES;
    var w2 := Next(Next(START, Rebuild(true)), Append(ev));
    assert w2.store == EMPTY_STORE.(log := [ev]) && w2.worker == Up(map[], ZERO_CURSOR, [], [], false);
    hide Next, Fold, Run, ApplyEvent, KeptRun;
    KeptRunUnfolds(outcome);
    AppliedTwice(w2, ev, outcome);
    FoldOfOne(ev);
    var w7 := Next(Next(Next(Next(Next(w2, Fetch(1, 0)), ApplyNext), Flush(outcome)), Fetch(1, 0)), ApplyNext);
    FlushedQuantity(w7, ev);
  }

  lemma FlushedQuantity(w: World, ev: Event)
    requires w.worker.Up? && w.worker.pending == [ev] && TradesSymbol(ev, "A")
    requires At(w.worker.lots, "A").qty == 20.0
    ensures var r := Next(w, Flush(Committed));
            At(r.store.rows, "A").qty == 20.0 && r.store.log == w.store.log && r.store.cursor == CursorOf(ev) &&
            r.torn == w.torn
  {
    assert ev in [ev];
    assert "A" in Touched([ev]);
    Round8FixesGrid(20.0);
    hide ApplyEvent, Skipped, Handles;
  }

  lemma FoldOfOne(ev: Event)
    requires ev.payload.TradeExecuted? && ev.payload.trade.side == Buy
    ensures At(Fold([ev]).lots, ev.payload.trade.symbol).qty == ev.payload.trade.qty
  {
    assert [ev][..0] == [];
    BuyApplies(map[], ev);
    hide ApplyEvent;
    assert Fold([ev]) == FoldEvent(EMPTY, ev);
  }

  lemma KeptRunUnfolds(outcome: Commit)
    ensures Run(START, KeptRun(outcome)) ==
            Next(Next(Next(Next(Next(Next(Next(Next(START, Rebuild(true)), Append(TEN_SHARES)), Fetch(1, 0)), ApplyNext),
              Flush(outcome)), Fetch(1, 0)), ApplyNext), Flush(Committed))
  {
    hide Next;
    var ev := TEN_SHARES;
    hide BuyEvent;
    RunFive(START, Rebuild(true), Append(ev), Fetch(1, 0), ApplyNext, Flush(outcome));
    var p := [Rebuild(true), Append(ev), Fetch(1, 0), ApplyNext, Flush(outcome)];
    RunSnoc(START, p, Fetch(1, 0));
    RunSnoc(START, p + [Fetch(1, 0)], ApplyNext);
    RunSnoc(START, p + [Fetch(1, 0)] + [ApplyNext], Flush(Committed));
    hide Run;
    assert KeptRun(outcome) == p + [Fetch(1, 0)] + [ApplyNext] + [Flush(Committed)];
  }

  lemma RunFive(w: World, a: Action, b: Action, c: Action, d: Action, e: Action)
    ensures Run(w, [a, b, c, d, e]) == Next(Next(Next(Next(Next(w, a), b), c), d), e)
  {
    hide Next;
    assert [] + [a] == [a];
    RunSnoc(w, [], a);
    assert [a] + [b] == [a, b];
    RunSnoc(w, [a], b);
    assert [a, b] + [c] == [a, b, c];
    RunSnoc(w, [a, b], c);
    assert [a, b, c] + [d] == [a, b, c, d];
    RunSnoc(w, [a, b, c], d);
    assert [a, b, c, d] + [e] == [a, b, c, d, e];
    RunSnoc(w, [a, b, c, d], e);
  }

  // ----- an arrival below a page in flight -----

  const LATER: Event := BuyEvent(5, 2, "k2", 1.0)
  const EARLIER: Event := BuyEvent(3, 3, "k3", 1.0)

  const RACE: seq<Action> := [Rebuild(true), Append(LATER), Fetch(5, 0), ApplyNext, Append(EARLIER)] + [Flush(Committed)]

  /** An event that lands behind the cursor is still lost when a page in front of which it lands is already
      in flight: the cursor is zero when EARLIER arrives, and the flush then passes it. */
  lemma ArrivalBelowPageIsLost()
    ensures After(Run(START, RACE[..4]).store.cursor, EARLIER)
    ensures var w := Run(START, RACE);
            !w.torn && EARLIER in w.store.log && EARLIER in w.missed && !After(w.store.cursor, EARLIER)
  {
    var ev := LATER;
    var w2 := Next(Next(START, Rebuild(true)), Append(ev));
    assert w2.store == EMPTY_STORE.(log := [ev]) && w2.worker == Up(map[], ZERO_CURSOR, [], [], false);
    FetchAndApply(w2, ev);
    var w4 := Next(Next(w2, Fetch(5, 0)), ApplyNext);
    var w5 := Next(w4, Append(EARLIER));
    assert w5.store.log == [EARLIER, LATER] by {
      assert Insert([LATER], EARLIER) == [EARLIER] + [LATER];
    }
    assert w5.store.cursor == ZERO_CURSOR && w5.worker == w4.worker && !w5.torn;
    FlushPasses(w5);
    RaceUnfolds();
    hide Next, ApplyEvent, Run;
  }

  lemma FlushPasses(w: World)
    requires w.store.log == [EARLIER, LATER] && w.store.cursor == ZERO_CURSOR
    requires w.worker.Up? && w.worker.pending == [LATER] && !w.torn
    ensures var r := Next(w, Flush(Committed));
            !r.torn && EARLIER in r.store.log && EARLIER in r.missed && !After(r.store.cursor, EARLIER)
  {
    hide WriteRows, Handles, ApplyEvent;
    assert w.store.log[0] == EARLIER;
  }

  lemma RaceUnfolds()
    ensures Run(START, RACE) ==
            Next(Next(Next(Next(Next(Next(START, Rebuild(true)), Append(LATER)), Fetch(5, 0)), ApplyNext), Append(EARLIER)),
              Flush(Committed))
    ensures Run(START, RACE[..4]) == Next(Next(Next(Next(START, Rebuild(true)), Append(LATER)), Fetch(5, 0)), ApplyNext)
  {
    hide Next;
    var a, b := LATER, EARLIER;
    hide BuyEvent;
    RunFive(START, Rebuild(true), Append(a), Fetch(5, 0), ApplyNext, Append(b));
    var p := [Rebuild(true), Append(a), Fetch(5, 0), ApplyNext, Append(b)];
    RunSnoc(START, p, Flush(Committed));
    assert RACE[..4] == [Rebuild(true), Append(a), Fetch(5, 0), ApplyNext];
    assert p == RACE[..4] + [Append(b)];
    RunFour(START, Rebuild(true), Append(a), Fetch(5, 0), ApplyNext);
  }

  lemma RunFour(w: World, a: Action, b: Action, c: Action, d: Action)
    ensures Run(w, [a, b, c, d]) == Next(Next(Next(Next(w, a), b), c), d)
  {
    hide Next;
    assert [] + [a] == [a];
    RunSnoc(w, [], a);
    assert [a] + [b] == [a, b];
    RunSnoc(w, [a], b);
    assert [a, b] + [c] == [a, b, c];
    RunSnoc(w, [a, b], c);
    assert [a, b, c] + [d] == [a, b, c, d];
    RunSnoc(w, [a, b, c], d);
  }

  // ----- quantities finer than the stored scale -----

  /** Validation only asks for a positive quantity. A buy of 0.000000004 shares is gone after a restart. */
  lemma FineQuantityIsLost()
    ensures var ev := BuyEvent(1, 1, "k1", 0.000000004);
            At(Replay([Handled(ev, false)]).lots, "A").qty == 0.000000004 &&
            At(Replay([Handled(ev, false), Restart]).lots, "A").qty == 0.0
  {
    var ev := BuyEvent(1, 1, "k1", 0.000000004);
    var h := [Handled(ev, false)];
    ReplaySnoc([], Handled(ev, false));
    assert [] + [Handled(ev, false)] == h;
    ReplaySnoc(h, Restart);
    assert h + [Restart] == [Handled(ev, false), Restart];
    BuyApplies(map[], ev);
    hide ApplyEvent, Replay;
    var l := FoldEntry(EMPTY, Handled(ev, false));
    RoundedAt(l.lots, "A");
    Round8ZeroIff(0.000000004);
    hide Rounded;
  }
}
