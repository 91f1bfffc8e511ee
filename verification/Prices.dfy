/** The tables that the price partitions write: the last mark and the returns window of every symbol.

    One batch is one transaction. What the tables hold is compared with what the applied events say symbol
    by symbol, and the partitions are shown not to interfere with each other. */
module Prices {
  import opened Decimals
  import opened Events
  import opened Options
  import opened Returns
  import opened Routing

  datatype Mark = Mark(price: real, asOf: Cursor)

  datatype Tables = Tables(marks: map<string, Mark>, windows: map<string, seq<Row>>)

  const NO_PRICES := Tables(map[], map[])

  function RowsAt(t: Tables, s: string): seq<Row> {
    if s in t.windows then t.windows[s] else []
  }

  function MarkAt(t: Tables, s: string): Option<Mark> {
    if s in t.marks then Some(t.marks[s]) else None
  }

  function TickOf(ev: Event): Tick
    requires ev.payload.PriceUpdated?
  {
    Tick(ev.payload.price, CursorOf(ev))
  }

  function MarkOf(t: Tick): Mark {
    Mark(Round8(t.price), t.asOf)
  }

  predicate Quotes(ev: Event, s: string) {
    ev.payload.PriceUpdated? && ev.payload.symbol == s
  }

  /** The mark, then the return of the day, then the trimmed window. */
  function ApplyPrice(t: Tables, ev: Event): Option<Tables>
    requires ev.payload.PriceUpdated?
  {
    var s := ev.payload.symbol;
    match Record(RowsAt(t, s), TickOf(ev))
    case None => None
    case Some(rows) => Some(Tables(t.marks[s := MarkOf(TickOf(ev))], t.windows[s := rows]))
  }

  function ApplyOne(t: Tables, ev: Event): Option<Tables> {
    if ev.payload.PriceUpdated? then ApplyPrice(t, ev) else Some(t)
  }

  /** A batch in order; an error anywhere gives up the whole batch. */
  function ApplyPrices(t: Tables, events: seq<Event>): Option<Tables> {
    if events == [] then Some(t)
    else
      match ApplyPrices(t, events[..|events| - 1])
      case None => None
      case Some(x) => ApplyOne(x, events[|events| - 1])
  }

  lemma {:induction false} ApplyPricesConcat(t: Tables, a: seq<Event>, b: seq<Event>)
    ensures ApplyPrices(t, a + b) ==
            match ApplyPrices(t, a) case None => None case Some(x) => ApplyPrices(x, b)
  {
    hide ApplyOne;
    if b == [] {
      assert a + b == a;
    } else {
      ApplyPricesConcat(t, a, b[..|b| - 1]);
      assert (a + b)[..|a + b| - 1] == a + b[..|b| - 1];
    }
  }

  // ----- symbol by symbol -----

  /** The price events of one symbol. */
  function TicksOf(events: seq<Event>, s: string): seq<Tick> {
    if events == [] then []
    else
      var ev := events[|events| - 1];
      TicksOf(events[..|events| - 1], s) + if Quotes(ev, s) then [TickOf(ev)] else []
  }

  function LastMark(ticks: seq<Tick>): Option<Mark> {
    if ticks == [] then None else Some(MarkOf(ticks[|ticks| - 1]))
  }

  lemma RecordAllSnoc(ticks: seq<Tick>, t: Tick)
    ensures RecordAll(ticks + [t]) == match RecordAll(ticks) case None => None case Some(table) => Record(table, t)
  {
    assert (ticks + [t])[..|ticks|] == ticks;
  }

  /** Tables hold what the symbol's own events say. */
  predicate Tells(t: Tables, events: seq<Event>, s: string) {
    RecordAll(TicksOf(events, s)) == Some(RowsAt(t, s)) && MarkAt(t, s) == LastMark(TicksOf(events, s))
  }

  lemma ApplyOneTells(t: Tables, events: seq<Event>, s: string)
    requires events != [] && Tells(t, events[..|events| - 1], s)
    ensures match ApplyOne(t, events[|events| - 1])
            case Some(x) => Tells(x, events, s)
            case None => Quotes(events[|events| - 1], s) ==> RecordAll(TicksOf(events, s)).None?
  {
    hide Record, MarkOf, RecordAll;
    var p, ev := events[..|events| - 1], events[|events| - 1];
    var ticks := TicksOf(p, s);
    assert TicksOf(events, s) == ticks + if Quotes(ev, s) then [TickOf(ev)] else [];
    hide TicksOf;
    if Quotes(ev, s) {
      RecordAllSnoc(ticks, TickOf(ev));
    } else {
      assert ticks + [] == ticks;
    }
  }

  /** What a sequence of batches leaves in the tables, and when it fails, symbol by symbol. */
  lemma {:induction false} TablesBySymbol(events: seq<Event>, s: string)
    ensures ApplyPrices(NO_PRICES, events).Some? ==> Tells(ApplyPrices(NO_PRICES, events).value, events, s)
    ensures RecordAll(TicksOf(events, s)).None? ==> ApplyPrices(NO_PRICES, events).None?
  {
    if events != [] {
      var p, ev := events[..|events| - 1], events[|events| - 1];
      TablesBySymbol(p, s);
      if ApplyPrices(NO_PRICES, p).Some? {
        ApplyOneTells(ApplyPrices(NO_PRICES, p).value, events, s);
        assert ApplyPrices(NO_PRICES, events) == ApplyOne(ApplyPrices(NO_PRICES, p).value, ev);
      }
      hide Tells, ApplyOne, RecordAll, TicksOf;
    }
  }

  /** The symbol whose window cannot be recorded. */
  lemma {:induction false} FailingSymbol(events: seq<Event>) returns (s: string)
    requires ApplyPrices(NO_PRICES, events).None?
    ensures RecordAll(TicksOf(events, s)).None?
  {
    var p, ev := events[..|events| - 1], events[|events| - 1];
    if ApplyPrices(NO_PRICES, p).None? {
      s := FailingSymbol(p);
      if Quotes(ev, s) {
        RecordAllSnoc(TicksOf(p, s), TickOf(ev));
      } else {
        assert TicksOf(p, s) + [] == TicksOf(p, s);
      }
    } else {
      s := ev.payload.symbol;
      TablesBySymbol(p, s);
      ApplyOneTells(ApplyPrices(NO_PRICES, p).value, events, s);
    }
    hide Record, Tells, MarkOf;
  }

  lemma DatesFollowTimes(a: Cursor, b: Cursor)
    requires a.Before(b)
    ensures UtcDate(a.time) <= UtcDate(b.time)
  {
  }

  /** Events in cursor order give ticks in date order. */
  lemma {:induction false} TicksInDateOrder(events: seq<Event>, s: string)
    requires Sorted(events)
    ensures InDateOrder(TicksOf(events, s))
    ensures forall t :: t in TicksOf(events, s) ==> exists e :: e in events && Quotes(e, s) && t == TickOf(e)
    ensures forall e :: e in events && Quotes(e, s) ==> TickOf(e) in TicksOf(events, s)
  {
    hide UtcDate;
    if events != [] {
      var p, ev := events[..|events| - 1], events[|events| - 1];
      TicksInDateOrder(p, s);
      assert events == p + [ev];
      if Quotes(ev, s) {
        forall t | t in TicksOf(p, s)
          ensures t.Date() <= TickOf(ev).Date()
        {
          var e :| e in p && Quotes(e, s) && t == TickOf(e);
          assert InOrder(e, ev);
          DatesFollowTimes(CursorOf(e), CursorOf(ev));
        }
      }
    }
  }

  /** The price tables from scratch. For events in cursor order the batches succeed just when, for every
      symbol, no day's close but the latest is stored as zero; then every symbol's window is its last 60
      dates, and its mark is that of its latest event. */
  lemma PriceTablesFromScratch(events: seq<Event>, s: string)
    requires Sorted(events)
    ensures ApplyPrices(NO_PRICES, events).None? <==> exists x :: !Storable(DayCloses(TicksOf(events, x)))
    ensures match ApplyPrices(NO_PRICES, events)
            case None => true
            case Some(t) =>
              var closes := DayCloses(TicksOf(events, s));
              Storable(closes) && RowsAt(t, s) == Latest(FullTable(closes), WINDOW) &&
              MarkAt(t, s) == LastMark(TicksOf(events, s))
  {
    hide RecordAll, DayCloses, Storable, FullTable, Latest, TicksOf, InDateOrder, Sorted, LastMark, ApplyPrices;
    if ApplyPrices(NO_PRICES, events).None? {
      var x := FailingSymbol(events);
      TicksInDateOrder(events, x);
      WindowIsFromScratch(TicksOf(events, x));
      assert !Storable(DayCloses(TicksOf(events, x)));
    }
    forall x
      ensures ApplyPrices(NO_PRICES, events).Some? ==> Storable(DayCloses(TicksOf(events, x)))
    {
      TablesBySymbol(events, x);
      TicksInDateOrder(events, x);
      WindowIsFromScratch(TicksOf(events, x));
    }
    TablesBySymbol(events, s);
    TicksInDateOrder(events, s);
    WindowIsFromScratch(TicksOf(events, s));
  }

  /** A mark is the rounded price of the applied event of greatest (time, id) for its symbol, and a symbol
      with an applied event has one. */
  lemma {:induction false} MarkIsLatest(events: seq<Event>, s: string) returns (last: Event)
    requires Sorted(events) && ApplyPrices(NO_PRICES, events).Some?
    requires exists e :: e in events && Quotes(e, s)
    ensures last in events && Quotes(last, s)
    ensures MarkAt(ApplyPrices(NO_PRICES, events).value, s) == Some(Mark(Round8(last.payload.price), CursorOf(last)))
    ensures forall e :: e in events && Quotes(e, s) ==> e == last || InOrder(e, last)
  {
    TablesBySymbol(events, s);
    hide ApplyPrices, RecordAll;
    last := LastQuote(events, s);
  }

  lemma {:induction false} LastQuote(events: seq<Event>, s: string) returns (last: Event)
    requires Sorted(events) && exists e :: e in events && Quotes(e, s)
    ensures last in events && Quotes(last, s) && LastMark(TicksOf(events, s)) == Some(MarkOf(TickOf(last)))
    ensures forall e :: e in events && Quotes(e, s) ==> e == last || InOrder(e, last)
  {
    hide Round8;
    var p, ev := events[..|events| - 1], events[|events| - 1];
    assert events == p + [ev];
    if Quotes(ev, s) {
      last := ev;
    } else {
      last := LastQuote(p, s);
      assert TicksOf(p, s) + [] == TicksOf(p, s);
    }
  }

  // ----- partitions do not interfere -----

  /** One transaction of one partition. */
  datatype Step = Step(partition: nat, batch: seq<Event>)

  /** A transaction that fails changes nothing. */
  function Deliver(t: Tables, step: Step): Tables {
    match ApplyPrices(t, step.batch)
    case None => t
    case Some(x) => x
  }

  function DeliverAll(t: Tables, steps: seq<Step>): Tables {
    if steps == [] then t else Deliver(DeliverAll(t, steps[..|steps| - 1]), steps[|steps| - 1])
  }

  /** Each symbol's price events are logged in the symbol's partition. */
  predicate Routed(shards: nat, step: Step)
    requires shards > 0
  {
    forall e :: e in step.batch && e.payload.PriceUpdated? ==> Route(shards, e.payload.symbol) == step.partition
  }

  function Of(steps: seq<Step>, k: nat): seq<Step> {
    if steps == [] then []
    else Of(steps[..|steps| - 1], k) + if steps[|steps| - 1].partition == k then [steps[|steps| - 1]] else []
  }

  predicate SameAt(x: Tables, y: Tables, s: string) {
    MarkAt(x, s) == MarkAt(y, s) && RowsAt(x, s) == RowsAt(y, s) && (s in x.windows <==> s in y.windows)
  }

  /** The tables agree on the symbols of partition k. */
  ghost predicate SameFor(shards: nat, x: Tables, y: Tables, k: nat)
    requires shards > 0
  {
    forall s :: Route(shards, s) == k ==> SameAt(x, y, s)
  }

  lemma {:induction false} OtherPartitionsKeep(shards: nat, t: Tables, step: Step, k: nat)
    requires shards > 0 && Routed(shards, step) && step.partition != k && ApplyPrices(t, step.batch).Some?
    ensures SameFor(shards, t, ApplyPrices(t, step.batch).value, k)
    decreases |step.batch|
  {
    hide Record, Route, MarkOf;
    if step.batch != [] {
      var p, ev := step.batch[..|step.batch| - 1], step.batch[|step.batch| - 1];
      OtherPartitionsKeep(shards, t, Step(step.partition, p), k);
      assert ev in step.batch;
    }
  }

  lemma ApplyOneAgrees(shards: nat, x: Tables, y: Tables, ev: Event, k: nat)
    requires shards > 0 && SameFor(shards, x, y, k)
    requires ev.payload.PriceUpdated? ==> Route(shards, ev.payload.symbol) == k
    ensures ApplyOne(x, ev).None? <==> ApplyOne(y, ev).None?
    ensures ApplyOne(x, ev).Some? ==> SameFor(shards, ApplyOne(x, ev).value, ApplyOne(y, ev).value, k)
  {
    hide Record, Route, MarkOf;
    if ev.payload.PriceUpdated? {
      assert SameAt(x, y, ev.payload.symbol);
    }
  }

  lemma {:induction false} BatchAgrees(shards: nat, x: Tables, y: Tables, step: Step)
    requires shards > 0 && Routed(shards, step) && SameFor(shards, x, y, step.partition)
    ensures ApplyPrices(x, step.batch).None? <==> ApplyPrices(y, step.batch).None?
    ensures ApplyPrices(x, step.batch).Some? ==>
              SameFor(shards, ApplyPrices(x, step.batch).value, ApplyPrices(y, step.batch).value, step.partition)
    decreases |step.batch|
  {
    hide ApplyOne, Route, SameFor;
    if step.batch != [] {
      var p, ev := step.batch[..|step.batch| - 1], step.batch[|step.batch| - 1];
      BatchAgrees(shards, x, y, Step(step.partition, p));
      assert ev in step.batch;
      if ApplyPrices(x, p).Some? {
        ApplyOneAgrees(shards, ApplyPrices(x, p).value, ApplyPrices(y, p).value, ev, step.partition);
      }
    }
  }

  lemma SameForTransitive(shards: nat, x: Tables, y: Tables, z: Tables, k: nat)
    requires shards > 0 && SameFor(shards, x, y, k) && SameFor(shards, y, z, k)
    ensures SameFor(shards, x, z, k)
  {
  }

  /** On the symbols of partition k, only the transactions of partition k matter. */
  lemma {:induction false} OnlyOwnPartition(shards: nat, t: Tables, steps: seq<Step>, k: nat)
    requires shards > 0 && forall x :: x in steps ==> Routed(shards, x)
    ensures SameFor(shards, DeliverAll(t, Of(steps, k)), DeliverAll(t, steps), k)
  {
    if steps != [] {
      var p, step := steps[..|steps| - 1], steps[|steps| - 1];
      assert step in steps;
      OnlyOwnPartition(shards, t, p, k);
      var x, y := DeliverAll(t, Of(p, k)), DeliverAll(t, p);
      if step.partition == k {
        assert (Of(p, k) + [step])[..|Of(p, k)|] == Of(p, k);
        BatchAgrees(shards, x, y, step);
        hide ApplyPrices, SameFor;
      } else {
        assert Of(p, k) + [] == Of(p, k);
        if ApplyPrices(y, step.batch).Some? {
          OtherPartitionsKeep(shards, y, step, k);
          SameForTransitive(shards, x, y, ApplyPrices(y, step.batch).value, k);
        }
        hide ApplyPrices, SameFor;
      }
    }
  }

  /** Shard interleavings do not matter: any two interleavings of the same per-partition transactions leave
      the same tables. */
  lemma InterleavingsAgree(shards: nat, a: seq<Step>, b: seq<Step>)
    requires shards > 0 && (forall x :: x in a + b ==> Routed(shards, x))
    requires forall k: nat :: Of(a, k) == Of(b, k)
    ensures DeliverAll(NO_PRICES, a) == DeliverAll(NO_PRICES, b)
  {
    var x, y := DeliverAll(NO_PRICES, a), DeliverAll(NO_PRICES, b);
    forall s
      ensures SameAt(x, y, s)
    {
      var k := Route(shards, s);
      OnlyOwnPartition(shards, NO_PRICES, a, k);
      OnlyOwnPartition(shards, NO_PRICES, b, k);
    }
    hide DeliverAll;
    SameEverywhere(x, y);
  }

  /** Tables that agree at every symbol are equal. */
  lemma SameEverywhere(x: Tables, y: Tables)
    requires forall s :: SameAt(x, y, s)
    ensures x == y
  {
    forall s
      ensures s in x.marks <==> s in y.marks
      ensures s in x.marks ==> x.marks[s] == y.marks[s]
      ensures s in x.windows <==> s in y.windows
      ensures s in x.windows ==> x.windows[s] == y.windows[s]
    {
      assert SameAt(x, y, s);
    }
    assert x.marks == y.marks && x.windows == y.windows;
  }
}
