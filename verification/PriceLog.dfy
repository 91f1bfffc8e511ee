/** The store of one price partition as a mutable object.

    The store records which events its committed transactions applied and set aside, and which logged price
    events the cursor has passed without either; the tables are always the fold of the applied events. */
module PriceLog {
  import opened Clock
  import opened Events
  import opened EventTable
  import opened History
  import opened Partition
  import opened Refinement
  import opened Runs
  import opened Arrival
  import opened Losses
  import opened Options
  import opened Returns
  import opened Prices

  // ----- what a page settles -----

  /** A price event moves the cursor, and so does an event that was found too stale. */
  function Settles(ev: Event, stale: bool): seq<Event> {
    if stale || ev.payload.PriceUpdated? then [ev] else []
  }

  function Accepts(ev: Event, stale: bool): seq<Event> {
    if !stale && ev.payload.PriceUpdated? then [ev] else []
  }

  function Refuses(ev: Event, stale: bool): seq<DeadLetter> {
    if stale then [DeadLetter(ev, EventTooStale)] else []
  }

  function Settled(events: seq<Event>, stale: seq<bool>): seq<Event>
    requires |stale| == |events|
  {
    if events == [] then []
    else Settled(events[..|events| - 1], stale[..|events| - 1]) + Settles(events[|events| - 1], stale[|events| - 1])
  }

  function Accepted(events: seq<Event>, stale: seq<bool>): seq<Event>
    requires |stale| == |events|
  {
    if events == [] then []
    else Accepted(events[..|events| - 1], stale[..|events| - 1]) + Accepts(events[|events| - 1], stale[|events| - 1])
  }

  function Refused(events: seq<Event>, stale: seq<bool>): seq<DeadLetter>
    requires |stale| == |events|
  {
    if events == [] then []
    else Refused(events[..|events| - 1], stale[..|events| - 1]) + Refuses(events[|events| - 1], stale[|events| - 1])
  }

  lemma PageSnoc(events: seq<Event>, stale: seq<bool>, ev: Event, b: bool)
    requires |stale| == |events|
    ensures Settled(events + [ev], stale + [b]) == Settled(events, stale) + Settles(ev, b)
    ensures Accepted(events + [ev], stale + [b]) == Accepted(events, stale) + Accepts(ev, b)
    ensures Refused(events + [ev], stale + [b]) == Refused(events, stale) + Refuses(ev, b)
  {
    assert (events + [ev])[..|events|] == events && (stale + [b])[..|events|] == stale;
    hide Settles, Accepts, Refuses;
  }

  function PriceEvents(events: seq<Event>): seq<Event> {
    if events == [] then []
    else PriceEvents(events[..|events| - 1]) + if events[|events| - 1].payload.PriceUpdated? then [events[|events| - 1]] else []
  }

  predicate AllPrices(events: seq<Event>) {
    forall e :: e in events ==> e.payload.PriceUpdated?
  }

  predicate NeverStale(stale: seq<bool>) {
    forall i :: 0 <= i < |stale| ==> !stale[i]
  }

  /** A page of price events is settled entirely, whatever is stale. */
  lemma {:induction false} AllPricesSettle(events: seq<Event>, stale: seq<bool>)
    requires |stale| == |events| && AllPrices(events)
    ensures Settled(events, stale) == events
  {
    if events != [] {
      var p, ev := events[..|events| - 1], events[|events| - 1];
      assert events == p + [ev] && ev in events;
      assert Settles(ev, stale[|events| - 1]) == [ev];
      AllPricesSettle(p, stale[..|events| - 1]);
      hide AllPrices, Settles;
    }
  }

  /** Without stale events, exactly the price events are settled, and all of them are applied. */
  lemma {:induction false} FreshPagesSettle(events: seq<Event>, stale: seq<bool>)
    requires |stale| == |events| && NeverStale(stale)
    ensures Settled(events, stale) == Accepted(events, stale) == PriceEvents(events) && Refused(events, stale) == []
  {
    if events != [] {
      var n := |events| - 1;
      FreshPagesSettle(events[..n], stale[..n]);
    }
  }

  /** A settled event is applied or set aside, once. */
  lemma {:induction false} SettledOnce(events: seq<Event>, stale: seq<bool>)
    requires |stale| == |events|
    ensures multiset(Accepted(events, stale)) + multiset(Letters(Refused(events, stale))) == multiset(Settled(events, stale))
  {
    if events != [] {
      var n := |events| - 1;
      SettledOnce(events[..n], stale[..n]);
      if stale[n] {
        LettersSnoc(Refused(events[..n], stale[..n]), DeadLetter(events[n], EventTooStale));
      } else {
        assert Refused(events[..n], stale[..n]) + [] == Refused(events[..n], stale[..n]);
      }
      hide Letters;
    }
  }

  // ----- the store -----

  predicate AllAfter(cur: Cursor, events: seq<Event>) {
    forall e :: e in events ==> After(cur, e)
  }

  /** The settled events stay in order as long as what is settled next lies behind them. */
  lemma SettleInOrder(settled: seq<Event>, batch: seq<Event>)
    requires Sorted(settled) && Sorted(batch) && AllAfter(LastCursor(settled), batch)
    ensures Sorted(settled + batch)
  {
    forall i, j | 0 <= i < j < |settled + batch|
      ensures InOrder((settled + batch)[i], (settled + batch)[j])
    {
      if i < |settled| <= j {
        assert batch[j - |settled|] in batch;
        assert i < |settled| - 1 ==> InOrder(settled[i], settled[|settled| - 1]);
      }
    }
  }

  /** The logged price events that a move of the cursor jumps over. */
  function PassedPrices(log: seq<Event>, from: Cursor, to: Cursor, batch: seq<Event>): set<Event> {
    set e | e in log && e.payload.PriceUpdated? && After(from, e) && !After(to, e) && e !in batch
  }

  /** A logged price event is at or below the cursor just when it was settled or missed, and never both. */
  predicate PricesAccounted(log: seq<Event>, cursor: Cursor, settled: seq<Event>, missed: set<Event>) {
    (forall e :: e in log && e.payload.PriceUpdated? ==> (!After(cursor, e) <==> e in settled || e in missed)) &&
    (forall e :: e in missed ==> e in log && e.payload.PriceUpdated? && e !in settled)
  }

  lemma AccountedAfterBatch(log: seq<Event>, cursor: Cursor, settled: seq<Event>, missed: set<Event>, batch: seq<Event>)
    requires PricesAccounted(log, cursor, settled, missed) && batch != [] && Sorted(batch) && AllAfter(cursor, batch)
    requires forall e :: e in batch ==> e in log
    ensures var next := CursorOf(batch[|batch| - 1]);
            PricesAccounted(log, next, settled + batch, missed + PassedPrices(log, cursor, next, batch))
  {
    var last := batch[|batch| - 1];
    CursorPassesBatch(batch);
    assert last in batch;
    hide Sorted;
    forall e | e in log && After(CursorOf(last), e)
      ensures After(cursor, e)
    {
      AfterMonotone(cursor, last, e);
    }
    hide After;
  }

  lemma AccountedAfterAppend(log: seq<Event>, cursor: Cursor, settled: seq<Event>, missed: set<Event>, ev: Event)
    requires PricesAccounted(log, cursor, settled, missed) && ev !in log && forall e :: e in settled ==> e in log
    ensures PricesAccounted(Insert(log, ev), cursor, settled,
              if ev.payload.PriceUpdated? && !After(cursor, ev) then missed + {ev} else missed)
  {
    AppendedLog(log, ev);
    hide Insert, After;
  }

  /** Every settled event was applied or recorded as dead, once. */
  predicate Balanced(applied: seq<Event>, dlq: seq<DeadLetter>, settled: seq<Event>) {
    multiset(applied) + multiset(Letters(dlq)) == multiset(settled)
  }

  lemma BalancedAfterBatch(applied: seq<Event>, dlq: seq<DeadLetter>, settled: seq<Event>, batch: seq<Event>)
    requires Balanced(applied, dlq, settled)
    ensures Balanced(applied + batch, dlq, settled + batch)
  {
    hide Letters;
  }

  lemma BalancedAfterLetter(applied: seq<Event>, dlq: seq<DeadLetter>, settled: seq<Event>, d: DeadLetter)
    requires Balanced(applied, dlq, settled)
    ensures Balanced(applied, dlq + [d], settled + [d.ev])
  {
    LettersSnoc(dlq, d);
    hide Letters;
  }

  /** Unless a batch was committed twice, the settled events are in strict order, the applied events are
      some of them, and the cursor is the last of them. */
  predicate InStep(cursor: Cursor, settled: seq<Event>, applied: seq<Event>, retried: bool) {
    (forall e :: e in applied ==> e in settled) &&
    (!retried ==> Sorted(settled) && Sorted(applied) && cursor == LastCursor(settled))
  }

  lemma InStepAfterBatch(cursor: Cursor, settled: seq<Event>, applied: seq<Event>, retried: bool, batch: seq<Event>)
    requires InStep(cursor, settled, applied, retried) && batch != [] && Sorted(batch)
    ensures InStep(CursorOf(batch[|batch| - 1]), settled + batch, applied + batch, retried || !AllAfter(cursor, batch))
  {
    hide Sorted;
    if !retried && AllAfter(cursor, batch) {
      SettleInOrder(settled, batch);
      AppliedInOrder(settled, applied, batch);
    }
    assert (settled + batch)[|settled + batch| - 1] == batch[|batch| - 1];
    hide AllAfter;
  }

  lemma InStepAfterLetter(cursor: Cursor, settled: seq<Event>, applied: seq<Event>, retried: bool, ev: Event)
    requires InStep(cursor, settled, applied, retried)
    ensures InStep(CursorOf(ev), settled + [ev], applied, retried || !After(cursor, ev))
  {
    if !retried && After(cursor, ev) {
      SettleInOrder(settled, [ev]);
    }
    hide Sorted;
  }

  /** The tables of one price partition. applied and settled record the events that committed transactions
      applied, and applied or set aside; missed are the logged price events that the cursor passed without
      settling them; retried says that a batch was committed a second time after its first commit had been
      reported as failed. */
  class PriceStore {
    const env: Surroundings
    var log: seq<Event>
    var cursor: Cursor
    var tables: Tables
    var dlq: seq<DeadLetter>
    ghost var settled: seq<Event>
    ghost var applied: seq<Event>
    ghost var missed: set<Event>
    ghost var retried: bool

    constructor (env: Surroundings)
      ensures this.env == env && Valid() && log == [] && cursor == ZERO_CURSOR && tables == NO_PRICES && dlq == []
      ensures settled == [] && applied == [] && missed == {} && !retried
    {
      this.env := env;
      log, cursor, tables, dlq := [], ZERO_CURSOR, NO_PRICES, [];
      settled, applied, missed, retried := [], [], {}, false;
    }

    /** The tables are the fold of the applied events. Unless a batch was committed twice, the settled
        events are in strict order, the cursor is the last of them, and every logged price event up to the
        cursor is settled or missed. */
    ghost predicate Valid()
      reads this
    {
      Sorted(log) && (forall e :: e in settled ==> e in log) && AllPrices(applied) &&
      ApplyPrices(NO_PRICES, applied) == Some(tables) && InStep(cursor, settled, applied, retried) &&
      Balanced(applied, dlq, settled) && (!retried ==> PricesAccounted(log, cursor, settled, missed))
    }

    /** Some logged events cannot be applied to the tables. */
    ghost predicate Blocked()
      reads this
    {
      exists batch: seq<Event> :: (forall e :: e in batch ==> e in log) && ApplyPrices(tables, batch).None?
    }

    /** Inserts the event unless a stored row has its event id or its idempotency key. A price event that
        lands at or below the cursor is missed. */
    method Append(ev: Event)
      requires Valid()
      modifies `log, `missed
      ensures Valid()
      ensures if exists e :: e in old(log) && Clash(e, ev) then log == old(log) else log == Insert(old(log), ev)
      ensures missed == if ev.payload.PriceUpdated? && log != old(log) && !After(cursor, ev) then old(missed) + {ev} else old(missed)
    {
      hide ApplyPrices, Sorted, Insert, After, InStep, Balanced, PricesAccounted;
      if exists e :: e in log && Clash(e, ev) {
        return;
      }
      NewRow(log, ev);
      if !retried {
        AccountedAfterAppend(log, cursor, settled, missed, ev);
      }
      missed := if ev.payload.PriceUpdated? && !After(cursor, ev) then missed + {ev} else missed;
      log := Insert(log, ev);
    }

    /** One transaction: mark, return and trimmed window for every event, then the cursor. An event whose
        return cannot be computed gives up the whole batch; otherwise the database decides. */
    method ApplyPriceBatch(batch: seq<Event>, outcome: Commit) returns (err: bool, ghost fate: Commit)
      requires Valid() && batch != [] && Sorted(batch) && AllPrices(batch) && forall e :: e in batch ==> e in log
      modifies `cursor, `tables, `settled, `applied, `missed, `retried
      ensures Valid() && (err <==> fate != Committed)
      ensures fate == if ApplyPrices(old(tables), batch).None? then Failed else outcome
      ensures fate == Failed ==>
                cursor == old(cursor) && tables == old(tables) && settled == old(settled) && applied == old(applied) &&
                missed == old(missed) && retried == old(retried)
      ensures fate != Failed ==>
                ApplyPrices(old(tables), batch) == Some(tables) && cursor == CursorOf(batch[|batch| - 1]) &&
                settled == old(settled) + batch && applied == old(applied) + batch &&
                missed == old(missed) + PassedPrices(log, old(cursor), cursor, batch) &&
                retried == (old(retried) || !AllAfter(old(cursor), batch))
    {
      hide ApplyPrices, Sorted, InStep, AllAfter, Balanced, PricesAccounted, PassedPrices;
      var written := WriteAll(tables, batch);
      if written.None? || outcome == Failed {
        return true, Failed;
      }
      InStepAfterBatch(cursor, settled, applied, retried, batch);
      BalancedAfterBatch(applied, dlq, settled, batch);
      if !retried && AllAfter(cursor, batch) {
        AccountedAfterBatch(log, cursor, settled, missed, batch);
      }
      ApplyPricesConcat(NO_PRICES, applied, batch);
      retried := retried || !AllAfter(cursor, batch);
      missed := missed + PassedPrices(log, cursor, CursorOf(batch[|batch| - 1]), batch);
      tables, cursor := written.value, CursorOf(batch[|batch| - 1]);
      settled, applied := settled + batch, applied + batch;
      return outcome != Committed, outcome;
    }

    /** One transaction: the dead letter, then the cursor. */
    method PersistApplyDLQ(ev: Event, reason: Reason, outcome: Commit) returns (err: bool)
      requires Valid() && ev in log
      modifies `cursor, `dlq, `settled, `missed, `retried
      ensures Valid() && (err <==> outcome != Committed)
      ensures outcome == Failed ==>
                cursor == old(cursor) && dlq == old(dlq) && settled == old(settled) && missed == old(missed) &&
                retried == old(retried)
      ensures outcome != Failed ==>
                cursor == CursorOf(ev) && dlq == old(dlq) + [DeadLetter(ev, reason)] && settled == old(settled) + [ev] &&
                missed == old(missed) + PassedPrices(log, old(cursor), cursor, [ev]) &&
                retried == (old(retried) || !After(old(cursor), ev))
    {
      hide ApplyPrices, Sorted, InStep, Balanced, PricesAccounted, PassedPrices, After;
      if outcome == Failed {
        return true;
      }
      InStepAfterLetter(cursor, settled, applied, retried, ev);
      BalancedAfterLetter(applied, dlq, settled, DeadLetter(ev, reason));
      if !retried && After(cursor, ev) {
        OneSorted(ev);
        AccountedAfterBatch(log, cursor, settled, missed, [ev]);
      }
      retried := retried || !After(cursor, ev);
      missed := missed + PassedPrices(log, cursor, CursorOf(ev), [ev]);
      dlq, cursor := dlq + [DeadLetter(ev, reason)], CursorOf(ev);
      settled := settled + [ev];
      return outcome != Committed;
    }
  }

  lemma OneSorted(ev: Event)
    ensures Sorted([ev])
  {
  }

  lemma NewRow(log: seq<Event>, ev: Event)
    requires Sorted(log) && !exists e :: e in log && Clash(e, ev)
    ensures ev !in log && Sorted(Insert(log, ev)) && Insert(log, ev) != log
    ensures forall e :: e in Insert(log, ev) <==> e == ev || e in log
  {
    assert Clash(ev, ev);
    InsertKeepsOrder(log, ev);
    assert ev in Insert(log, ev);
    hide Sorted, Insert;
  }

  lemma AppliedInOrder(settled: seq<Event>, applied: seq<Event>, batch: seq<Event>)
    requires Sorted(settled) && Sorted(applied) && Sorted(batch) && AllAfter(LastCursor(settled), batch)
    requires forall e :: e in applied ==> e in settled
    ensures Sorted(applied + batch)
  {
    SettleInOrder(settled, batch);
    forall i, j | 0 <= i < j < |applied + batch|
      ensures InOrder((applied + batch)[i], (applied + batch)[j])
    {
      if i < |applied| <= j {
        assert applied[i] in settled;
        var k :| 0 <= k < |settled| && settled[k] == applied[i];
        assert InOrder((settled + batch)[k], (settled + batch)[|settled| + j - |applied|]);
      }
    }
  }

  /** The rows of a batch, written one event after the other. */
  method WriteAll(tables: Tables, batch: seq<Event>) returns (r: Option<Tables>)
    ensures r == ApplyPrices(tables, batch)
  {
    hide ApplyPrice;
    var tx := tables;
    var i := 0;
    WriteNothing(tables);
    while i < |batch|
      invariant 0 <= i <= |batch|
      invariant ApplyPrices(tables, batch[..i]) == Some(tx)
    {
      assert batch[..i + 1] == batch[..i] + [batch[i]];
      ApplyPricesConcat(tables, batch[..i], [batch[i]]);
      WriteOne(tx, batch[i]);
      if batch[i].payload.PriceUpdated? {
        var written := ApplyPrice(tx, batch[i]);
        if written.None? {
          assert batch == batch[..i + 1] + batch[i + 1..];
          ApplyPricesConcat(tables, batch[..i + 1], batch[i + 1..]);
          return None;
        }
        tx := written.value;
      }
      i := i + 1;
    }
    assert batch[..i] == batch;
    return Some(tx);
  }

  lemma WriteNothing(t: Tables)
    ensures ApplyPrices(t, []) == Some(t)
  {
  }

  lemma WriteOne(t: Tables, ev: Event)
    ensures ApplyPrices(t, [ev]) == ApplyOne(t, ev)
  {
    hide ApplyOne;
    assert [ev][..0] == [];
  }

  /** A partition is stuck at a batch that cannot be applied: every longer batch fails too. */
  lemma StuckBatch(t: Tables, batch: seq<Event>, more: seq<Event>)
    requires ApplyPrices(t, batch).None?
    ensures ApplyPrices(t, batch + more).None?
  {
    ApplyPricesConcat(t, batch, more);
  }

  // ----- the tables and the log -----

  /** The price events of the log up to the cursor, without those that were missed, in order. */
  ghost function PricesCovered(store: PriceStore): seq<Event>
    reads store
  {
    PriceEvents(Covered(store.log, store.cursor, store.missed))
  }

  lemma {:induction false} PriceEventsMembers(events: seq<Event>)
    ensures forall e :: e in PriceEvents(events) <==> e in events && e.payload.PriceUpdated?
  {
    if events != [] {
      var p, ev := events[..|events| - 1], events[|events| - 1];
      assert events == p + [ev];
      PriceEventsMembers(p);
    }
  }

  lemma SortedSnoc(p: seq<Event>, ev: Event)
    requires Sorted(p) && forall e :: e in p ==> InOrder(e, ev)
    ensures Sorted(p + [ev])
  {
  }

  lemma SortedUnsnoc(p: seq<Event>, ev: Event)
    requires Sorted(p + [ev])
    ensures Sorted(p) && forall e :: e in p ==> InOrder(e, ev)
  {
    SplitSorted(p, [ev]);
    forall e | e in p
      ensures InOrder(e, ev)
    {
      var i :| 0 <= i < |p| && p[i] == e;
      assert InOrder((p + [ev])[i], (p + [ev])[|p|]);
    }
  }

  lemma {:induction false} PriceEventsSorted(events: seq<Event>)
    requires Sorted(events)
    ensures Sorted(PriceEvents(events))
  {
    hide Sorted;
    if events == [] {
      assert PriceEvents(events) == events;
    } else {
      var p, ev := events[..|events| - 1], events[|events| - 1];
      assert events == p + [ev];
      SortedUnsnoc(p, ev);
      PriceEventsSorted(p);
      PriceEventsMembers(p);
      SortedSnoc(PriceEvents(p), ev);
      assert PriceEvents(p) + [] == PriceEvents(p);
    }
  }

  lemma {:induction false} OnlyPriceEvents(events: seq<Event>)
    requires AllPrices(events)
    ensures PriceEvents(events) == events
  {
    if events != [] {
      var p, ev := events[..|events| - 1], events[|events| - 1];
      assert events == p + [ev];
      assert ev in events;
      assert forall e :: e in p ==> e in events;
      OnlyPriceEvents(p);
    }
  }

  /** The settled price events are exactly those of the log up to the cursor, without the missed ones. */
  lemma SettledIsCovered(store: PriceStore)
    requires store.Valid() && !store.retried
    ensures PriceEvents(store.settled) == PricesCovered(store)
    ensures AllPrices(store.log) ==> store.settled == Covered(store.log, store.cursor, store.missed)
  {
    hide ApplyPrices, Balanced, After;
    CoveredFacts(store.log, store.cursor, store.missed);
    var covered := Covered(store.log, store.cursor, store.missed);
    hide Covered, Sorted, PriceEvents;
    PriceEventsMembers(store.settled);
    PriceEventsMembers(covered);
    PriceEventsSorted(store.settled);
    PriceEventsSorted(covered);
    SortedUnique(PriceEvents(store.settled), PriceEvents(covered));
    if AllPrices(store.log) {
      OnlyPriceEvents(store.settled);
      OnlyPriceEvents(covered);
    }
  }

  /** Exactly-once disposition: a logged price event at or below the cursor that was not missed was applied once
      or recorded as dead once, any other neither. */
  lemma PricesExactlyOnce(store: PriceStore, e: Event)
    requires store.Valid() && !store.retried && e in store.log && e.payload.PriceUpdated?
    ensures multiset(store.applied)[e] + multiset(Letters(store.dlq))[e] ==
            if !After(store.cursor, e) && e !in store.missed then 1 else 0
  {
    hide ApplyPrices, After, Letters;
    SortedCounts(store.settled, e);
    assert (multiset(store.applied) + multiset(Letters(store.dlq)))[e] == multiset(store.settled)[e];
  }

  /** With nothing set aside, what was applied is the log's price events up to the cursor. */
  lemma AppliedIsCovered(store: PriceStore)
    requires store.Valid() && !store.retried && store.dlq == []
    ensures store.applied == PricesCovered(store) && Sorted(store.applied)
  {
    hide ApplyPrices, After, PriceEvents, Covered, PricesAccounted, Sorted;
    SettledIsCovered(store);
    PriceEventsMembers(store.settled);
    PriceEventsSorted(store.settled);
    assert multiset(Letters(store.dlq)) == multiset{};
    assert multiset(store.applied) == multiset(store.settled);
    forall e
      ensures e in store.applied <==> e in PriceEvents(store.settled)
    {
      assert e in store.applied <==> e in multiset(store.applied);
      assert e in store.settled <==> e in multiset(store.settled);
    }
    SortedUnique(store.applied, PriceEvents(store.settled));
  }

  /** The tables of the log: while no batch was committed twice and nothing was set aside, every window and
      every mark is that computed from scratch from the log's price events up to the cursor, without the missed
      ones, whatever the batches and restarts were. */
  lemma TablesAreFromScratch(store: PriceStore, s: string)
    requires store.Valid() && !store.retried && store.dlq == []
    ensures var ticks := TicksOf(PricesCovered(store), s);
            Storable(DayCloses(ticks)) && RowsAt(store.tables, s) == Latest(FullTable(DayCloses(ticks)), WINDOW) &&
            MarkAt(store.tables, s) == LastMark(ticks)
  {
    AppliedIsCovered(store);
    hide DayCloses, Storable, FullTable, TicksOf, Sorted, ApplyPrices, Latest, PriceEvents, Covered;
    PriceTablesFromScratch(store.applied, s);
  }
}
