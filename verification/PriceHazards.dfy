/** Where the price tables go wrong in the code as written: runs of the store with concrete prices. */
module PriceHazards {
  import opened Clock
  import opened Decimals
  import opened Events
  import opened EventTable
  import opened Options
  import opened History
  import opened Partition
  import opened Returns
  import opened FullTables
  import opened Prices
  import opened Retries
  import opened PriceLog

  function Key(n: nat): (key: string)
    ensures |key| == n
  {
    seq(n, i => 'k')
  }

  /** The n-th event, a price of symbol A so many nanoseconds into a day. */
  function Quote(n: nat, day: nat, nanos: nat, price: Price): Event {
    Envelope(day * 86400000000000 + nanos, n + 1, Key(n), PriceUpdated("A", price))
  }

  lemma QuoteDate(n: nat, day: nat, nanos: nat, price: Price)
    requires nanos < 86400000000000
    ensures var ev := Quote(n, day, nanos, price);
            Quotes(ev, "A") && TickOf(ev).Date() == day && TickOf(ev).price == price
  {
  }

  predicate Ascends(closes: seq<Tick>) {
    forall i, j :: 0 <= i < j < |closes| ==> closes[i].Date() < closes[j].Date()
  }

  /** Distinct dates in order are all day closes. */
  lemma {:induction false} DistinctDays(ticks: seq<Tick>)
    requires Ascends(ticks)
    ensures DayCloses(ticks) == ticks
  {
    hide UtcDate;
    if ticks != [] {
      var p, t := ticks[..|ticks| - 1], ticks[|ticks| - 1];
      assert ticks == p + [t];
      DistinctDays(p);
      if p != [] {
        assert ticks[|p| - 1].Date() < ticks[|p|].Date();
      }
    }
  }

  // ----- a day close that is stored as zero -----

  const TINY: Event := Quote(0, 0, 0, 0.000000001)
  const NEXT_DAY: Event := Quote(1, 1, 0, 1.0)
  const SAME_DAY: Event := Quote(2, 0, 1, 1.0)

  lemma TicksOfTwo(a: Event, b: Event, s: string)
    requires Quotes(a, "A") && Quotes(b, "A")
    ensures TicksOf([a, b], s) == if s == "A" then [TickOf(a), TickOf(b)] else []
  {
    assert [a, b][..1] == [a] && [a][..0] == [];
    hide TickOf;
    assert TicksOf([a], s) == if s == "A" then [TickOf(a)] else [];
  }

  lemma TicksOfThree(a: Event, b: Event, c: Event, s: string)
    requires Quotes(a, "A") && Quotes(b, "A") && Quotes(c, "A")
    ensures TicksOf([a, b, c], s) == if s == "A" then [TickOf(a), TickOf(b), TickOf(c)] else []
  {
    TicksOfTwo(a, b, s);
    assert [a, b, c][..2] == [a, b];
    hide TickOf;
  }

  /** A price of 0.000000001 as a day's close blocks the batch that brings the next day's price. */
  lemma TinyCloseBlocks()
    ensures Sorted([TINY, NEXT_DAY]) && ApplyPrices(NO_PRICES, [TINY]).Some? && ApplyPrices(NO_PRICES, [TINY, NEXT_DAY]).None?
  {
    QuoteDate(0, 0, 0, 0.000000001);
    QuoteDate(1, 1, 0, 1.0);
    TicksOfTwo(TINY, NEXT_DAY, "A");
    DistinctDays([TickOf(TINY), TickOf(NEXT_DAY)]);
    Round8ZeroIff(0.000000001);
    hide Round8, ApplyPrices, UtcDate;
    assert !Storable(DayCloses(TicksOf([TINY, NEXT_DAY], "A")));
    PriceTablesFromScratch([TINY, NEXT_DAY], "A");
    FirstPriceApplies();
  }

  lemma FirstPriceApplies()
    ensures ApplyPrices(NO_PRICES, [TINY]).Some?
  {
    assert [TINY][..0] == [];
    hide PutRow, Latest;
  }

  lemma ThreeTicks()
    ensures Quotes(TINY, "A") && Quotes(SAME_DAY, "A") && Quotes(NEXT_DAY, "A")
    ensures TickOf(TINY).Date() == TickOf(SAME_DAY).Date() < TickOf(NEXT_DAY).Date() && TickOf(SAME_DAY).price == 1.0
  {
    hide UtcDate, Quote;
    QuoteDate(0, 0, 0, 0.000000001);
    QuoteDate(1, 1, 0, 1.0);
    QuoteDate(2, 0, 1, 1.0);
  }

  lemma StorableTwo(b: Tick, c: Tick)
    requires b.price == 1.0
    ensures Storable([b, c]) && Storable([])
  {
    Round8FixesGrid(1.0);
    hide Round8;
  }

  lemma ThreeStorable(s: string)
    ensures Storable(DayCloses(TicksOf([TINY, SAME_DAY, NEXT_DAY], s)))
  {
    ThreeTicks();
    hide UtcDate, TicksOf, DayCloses, Storable, TINY, SAME_DAY, NEXT_DAY;
    TicksOfThree(TINY, SAME_DAY, NEXT_DAY, s);
    ClosesOfThree(TickOf(TINY), TickOf(SAME_DAY), TickOf(NEXT_DAY));
    StorableTwo(TickOf(SAME_DAY), TickOf(NEXT_DAY));
    NoCloses();
  }

  lemma NoCloses()
    ensures DayCloses([]) == []
  {
  }

  lemma ThreeSorted()
    ensures Sorted([TINY, SAME_DAY, NEXT_DAY])
  {
  }

  /** A later tick of that day, stored between the two, lets the next day through. */
  lemma LateTickUnblocks()
    ensures ApplyPrices(NO_PRICES, [TINY, SAME_DAY, NEXT_DAY]).Some?
  {
    ThreeSorted();
    hide ApplyPrices, UtcDate, DayCloses, Storable, TicksOf, Sorted, TINY, SAME_DAY, NEXT_DAY;
    forall x
      ensures Storable(DayCloses(TicksOf([TINY, SAME_DAY, NEXT_DAY], x)))
    {
      ThreeStorable(x);
    }
    PriceTablesFromScratch([TINY, SAME_DAY, NEXT_DAY], "A");
  }

  lemma ClosesOfThree(a: Tick, b: Tick, c: Tick)
    requires a.Date() == b.Date() < c.Date()
    ensures DayCloses([a, b, c]) == [b, c]
  {
    hide UtcDate;
    assert [a, b, c][..2] == [a, b] && [a, b][..1] == [a] && [a][..0] == [];
    assert DayCloses([a]) == [a];
    assert DayCloses([a, b]) == [b];
  }

  // ----- a batch that was committed twice -----

  /** One price a day. */
  function Backfill(n: nat): seq<Event> {
    seq(n, i requires 0 <= i < n => Quote(i, i, 0, 1.0))
  }

  lemma BackfillFacts(n: nat)
    ensures Sorted(Backfill(n)) && AllPrices(Backfill(n))
    ensures forall i :: 0 <= i < n ==> Backfill(n)[i].id == i + 1 && |Backfill(n)[i].key| == i
  {
  }

  function DailyTicks(n: nat): seq<Tick> {
    seq(n, i requires 0 <= i < n => TickOf(Quote(i, i, 0, 1.0)))
  }

  lemma OneMoreDay(n: nat)
    requires n > 0
    ensures var q := Quote(n - 1, n - 1, 0, 1.0);
            Backfill(n) == Backfill(n - 1) + [q] && DailyTicks(n) == DailyTicks(n - 1) + [TickOf(q)] && Quotes(q, "A")
  {
    hide TickOf;
  }

  lemma TicksSnoc(events: seq<Event>, ev: Event, s: string)
    ensures TicksOf(events + [ev], s) == TicksOf(events, s) + if Quotes(ev, s) then [TickOf(ev)] else []
  {
    assert (events + [ev])[..|events|] == events;
    hide TickOf;
  }

  lemma {:induction false} TicksOfBackfill(n: nat, s: string)
    ensures TicksOf(Backfill(n), s) == if s == "A" then DailyTicks(n) else []
  {
    hide TicksOf, TickOf, Quote;
    if n == 0 {
      assert TicksOf([], s) == [] by {
        NothingQuoted(s);
      }
      assert Backfill(0) == [] && DailyTicks(0) == [];
    } else {
      hide Backfill, DailyTicks;
      var q := Quote(n - 1, n - 1, 0, 1.0);
      TicksOfBackfill(n - 1, s);
      OneMoreDay(n);
      TicksSnoc(Backfill(n - 1), q, s);
    }
  }

  lemma NothingQuoted(s: string)
    ensures TicksOf([], s) == []
  {
  }

  lemma BackfillCloses(n: nat, s: string)
    ensures DayCloses(TicksOf(Backfill(n), s)) == (if s == "A" then DailyTicks(n) else [])
    ensures Storable(DayCloses(TicksOf(Backfill(n), s)))
    ensures forall i :: 0 <= i < n ==> DailyTicks(n)[i].Date() == i
  {
    TicksOfBackfill(n, s);
    hide TicksOf, Backfill;
    var ticks := DailyTicks(n);
    forall i | 0 <= i < n
      ensures ticks[i].Date() == i
    {
      QuoteDate(i, i, 0, 1.0);
    }
    hide UtcDate;
    DistinctDays(ticks);
    Round8FixesGrid(1.0);
    hide Round8;
    assert DayCloses([]) == [];
  }

  /** The batch of 61 daily prices applies, and has a tick on the oldest of the 60 dates that are kept. */
  lemma BackfillHits()
    ensures ApplyPrices(NO_PRICES, Backfill(61)).Some? && HitAt(Backfill(61), Backfill(61), "A")
  {
    BackfillFacts(61);
    forall x
      ensures Storable(DayCloses(TicksOf(Backfill(61), x)))
    {
      BackfillCloses(61, x);
    }
    hide ApplyPrices, Backfill, UtcDate, DayCloses;
    PriceTablesFromScratch(Backfill(61), "A");
    BackfillCloses(61, "A");
    TicksOfBackfill(61, "A");
    var ticks := DailyTicks(61);
    hide DailyTicks;
    assert ticks[1] in ticks && Trimmed(ticks) == 1;
  }

  // ----- an arrival between the two commits -----

  /** A late price of the day after the first. */
  const LATE: Event := Quote(61, 1, 3600000000000, 1.0)
  const LATE_TICK: Tick := TickOf(LATE)

  function Early(): seq<Event> {
    Backfill(61)[..2]
  }

  function Batch(): seq<Event> {
    Backfill(61)[2..]
  }

  function LateTicks(): seq<Tick> {
    DailyTicks(61)[..2] + [LATE_TICK] + DailyTicks(61)[2..]
  }

  lemma DayClosesSnoc(x: seq<Tick>, t: Tick)
    ensures DayCloses(x + [t]) == CloseAdded(DayCloses(x), t)
  {
    assert (x + [t])[..|x|] == x;
  }

  /** Later dates, one tick each. */
  lemma {:induction false} ClosesOfLater(x: seq<Tick>, y: seq<Tick>, c: seq<Tick>)
    requires DayCloses(x) == c && c != [] && Ascends([c[|c| - 1]] + y)
    ensures DayCloses(x + y) == c + y
    decreases |y|
  {
    hide UtcDate, DayCloses, Ascends;
    if y == [] {
      assert x + y == x && c + y == c;
    } else {
      var t, z := y[0], y[1..];
      var last := c[|c| - 1];
      assert y == [t] + z && x + y == (x + [t]) + z;
      AscendsTail(last, y);
      DayClosesSnoc(x, t);
      ClosesOfLater(x + [t], z, c + [t]);
      assert c + [t] + z == c + y;
    }
  }

  lemma AscendsTail(last: Tick, y: seq<Tick>)
    requires Ascends([last] + y) && y != []
    ensures last.Date() < y[0].Date() && Ascends([y[0]] + y[1..])
  {
    hide UtcDate;
    var all := [last] + y;
    assert all[0] == last && all[1] == y[0] && [y[0]] + y[1..] == y;
    assert forall i :: 0 <= i < |y| ==> y[i] == all[i + 1];
  }

  lemma LateClosesOf(a: Tick, b: Tick, c: Tick, y: seq<Tick>)
    requires a.Date() < b.Date() == c.Date() && Ascends([c] + y)
    ensures DayCloses([a, b, c] + y) == [a, c] + y
  {
    hide UtcDate, Ascends, DayCloses;
    NoCloses();
    DayClosesSnoc([], a);
    DayClosesSnoc([a], b);
    DayClosesSnoc([a, b], c);
    assert [] + [a] == [a] && [a] + [b] == [a, b] && [a, b] + [c] == [a, b, c];
    assert DayCloses([a, b, c]) == [a, c];
    ClosesOfLater([a, b, c], y, [a, c]);
  }

  function LateCloses(): seq<Tick> {
    DailyTicks(61)[1 := LATE_TICK]
  }

  lemma LateTickDates()
    ensures |DailyTicks(61)| == 61 && forall i :: 0 <= i < 61 ==> DailyTicks(61)[i].Date() == i && DailyTicks(61)[i].price == 1.0
    ensures LATE_TICK.Date() == 1 && LATE_TICK.price == 1.0
  {
    forall i | 0 <= i < 61
      ensures DailyTicks(61)[i].Date() == i && DailyTicks(61)[i].price == 1.0
    {
      QuoteDate(i, i, 0, 1.0);
    }
    QuoteDate(61, 1, 3600000000000, 1.0);
    hide UtcDate;
  }

  lemma LateTicksFacts()
    ensures DayCloses(LateTicks()) == LateCloses() && Storable(LateCloses())
  {
    LateTickDates();
    hide UtcDate, LATE_TICK, DayCloses, DailyTicks;
    var d, c := DailyTicks(61), LATE_TICK;
    var y := d[2..];
    assert forall i :: 0 <= i < |y| ==> y[i] == d[i + 2];
    LaterDays(c, y);
    assert LateTicks() == [d[0], d[1], c] + y && LateCloses() == [d[0], c] + y;
    LateClosesOf(d[0], d[1], c, y);
    AllOnes(LateCloses());
  }

  lemma LaterDays(c: Tick, y: seq<Tick>)
    requires c.Date() == 1 && forall i :: 0 <= i < |y| ==> y[i].Date() == i + 2
    ensures Ascends([c] + y)
  {
    hide UtcDate;
    assert forall i :: 0 <= i < |y| ==> ([c] + y)[i + 1] == y[i];
  }

  lemma AllOnes(closes: seq<Tick>)
    requires forall t :: t in closes ==> t.price == 1.0
    ensures Storable(closes)
  {
    Round8FixesGrid(1.0);
    hide Round8;
  }

  lemma EarlyPart()
    ensures Backfill(61) == Early() + Batch() && Early() == Backfill(2)
    ensures |DailyTicks(61)| == 61 && DailyTicks(61)[..2] == DailyTicks(2)
  {
    hide Quote, TickOf;
  }

  lemma LateTickOf(s: string)
    ensures TicksOf([LATE], s) == if s == "A" then [LATE_TICK] else []
  {
    TicksSnoc([], LATE, s);
    NothingQuoted(s);
    assert [] + [LATE] == [LATE];
    hide TicksOf;
  }

  lemma RestIs<T>(d: seq<T>, n: nat, x: seq<T>)
    requires n <= |d| && d == d[..n] + x
    ensures x == d[n..]
  {
  }

  lemma LateTicksOf(s: string)
    ensures TicksOf(Early() + ([LATE] + Batch()), s) == if s == "A" then LateTicks() else []
    ensures TicksOf(Batch(), s) == if s == "A" then DailyTicks(61)[2..] else []
    ensures TicksOf([LATE] + Batch(), s) == if s == "A" then [LATE_TICK] + DailyTicks(61)[2..] else []
  {
    hide Backfill, DailyTicks, TicksOf, LATE, LATE_TICK, Early, Batch;
    EarlyPart();
    TicksOfBackfill(61, s);
    TicksOfBackfill(2, s);
    LateTickOf(s);
    TicksConcat(Early(), Batch(), s);
    TicksConcat([LATE], Batch(), s);
    TicksConcat(Early(), [LATE] + Batch(), s);
    if s == "A" {
      RestIs(DailyTicks(61), 2, TicksOf(Batch(), s));
      assert DailyTicks(61)[..2] + ([LATE_TICK] + DailyTicks(61)[2..]) == LateTicks();
    }
  }

  lemma LateSorted()
    ensures Sorted(Early() + Batch()) && Sorted(Early() + ([LATE] + Batch()))
    ensures Early() + Batch() == Backfill(61) && forall e :: e in Batch() ==> e in [LATE] + Batch()
  {
    assert Early() + Batch() == Backfill(61);
    var all := Early() + ([LATE] + Batch());
    forall i | 0 <= i < 62
      ensures all[i] == if i < 2 then Quote(i, i, 0, 1.0) else if i == 2 then LATE else Quote(i - 1, i - 1, 0, 1.0)
    {
    }
  }

  /** The batch of days 2 to 60 has no tick on the oldest date that is kept. When it is applied again behind a late tick
      of that date, day 1, the return of day 1 is lost all the same. */
  lemma ArrivalDropsReturn()
    ensures var a, b, page := Early(), Batch(), [LATE] + Batch();
            ApplyPrices(NO_PRICES, a + b).Some? && ApplyPrices(NO_PRICES, a + page).Some? && !HitAt(a + b, b, "A") &&
            var t, w := ApplyPrices(NO_PRICES, a + b).value, RowsAt(ApplyPrices(NO_PRICES, a + page).value, "A");
            ApplyPrices(t, page).Some? && w != [] && w[0].ret.Some? &&
            RowsAt(ApplyPrices(t, page).value, "A") == [w[0].(ret := None)] + w[1..]
  {
    var a, b, page := Early(), Batch(), [LATE] + Batch();
    LateSorted();
    LateTicksFacts();
    hide Early, Batch, LATE, ApplyPrices, Sorted, DayCloses, Storable, UtcDate, LateTicks, LateCloses, DailyTicks, Quote, TicksOf;
    forall x
      ensures Storable(DayCloses(TicksOf(a + b, x))) && Storable(DayCloses(TicksOf(a + page, x)))
    {
      BackfillCloses(61, x);
      LateTicksOf(x);
      NoCloses();
      assert Storable([]) by {
        StorableNone();
      }
    }
    PriceTablesFromScratch(a + b, "A");
    PriceTablesFromScratch(a + page, "A");
    LateLoses();
    RetriedPageIff(a, b, page, ApplyPrices(NO_PRICES, a + b).value);
  }

  lemma StorableNone()
    ensures Storable([])
  {
  }

  lemma LateLoses()
    ensures var a, b, page := Early(), Batch(), [LATE] + Batch();
            LosesAt(a + b, page, a + page, "A") && !HitAt(a + b, b, "A")
  {
    var a, b, page := Early(), Batch(), [LATE] + Batch();
    LateSorted();
    LateTicksFacts();
    LateTicksOf("A");
    BackfillCloses(61, "A");
    TicksOfBackfill(61, "A");
    hide LATE, Early, Batch, DayCloses, UtcDate, LateTicks, LateCloses, DailyTicks, TicksOf, Sorted;
    LateCondition();
    NotHit();
  }

  lemma LateCondition()
    ensures LosesReturn(DailyTicks(61), [LATE_TICK] + DailyTicks(61)[2..], LateCloses())
  {
    LateTickDates();
    hide UtcDate, LATE_TICK, DailyTicks;
    var d, q := DailyTicks(61), [LATE_TICK] + DailyTicks(61)[2..];
    forall k | 0 <= k < 61
      ensures HasTick(d, k) && LateCloses()[k].Date() == k
    {
      assert d[k] in d;
    }
    assert q[0].Date() == 1 && HasTick(d + q[..0], 1) by {
      assert q[..0] == [] && d + [] == d;
    }
  }

  lemma NotHit()
    ensures !HitsOldest(DailyTicks(61), DailyTicks(61)[2..])
  {
    LateTickDates();
    hide UtcDate, DailyTicks;
    var y := DailyTicks(61)[2..];
    assert forall i :: 0 <= i < |y| ==> y[i] == DailyTicks(61)[i + 2];
  }

  lemma InsertLast(log: seq<Event>, ev: Event)
    requires forall e :: e in log ==> !InOrder(ev, e)
    ensures Insert(log, ev) == log + [ev]
  {
    if log != [] {
      assert log[0] in log;
      assert forall e :: e in log[1..] ==> e in log;
      InsertLast(log[1..], ev);
      assert log == [log[0]] + log[1..];
    }
  }

  /** The window that the log's own prices give. */
  function LogWindow(log: seq<Event>): seq<Row>
    requires Storable(DayCloses(TicksOf(log, "A")))
  {
    Latest(FullTable(DayCloses(TicksOf(log, "A"))), WINDOW)
  }

  /** Applied twice the batch leaves a window whose oldest row has lost its return. */
  lemma BackfillTwice(t: Tables)
    requires ApplyPrices(NO_PRICES, Backfill(61)) == Some(t)
    ensures ApplyPrices(t, Backfill(61)).Some?
    ensures Storable(DayCloses(TicksOf(Backfill(61), "A")))
    ensures var w := LogWindow(Backfill(61));
            w != [] && w[0].ret.Some? &&
            RowsAt(ApplyPrices(t, Backfill(61)).value, "A") == [w[0].(ret := None)] + w[1..]
  {
    BackfillFacts(61);
    hide Backfill, ApplyPrices, Sorted, HitAt, DayCloses, Storable, TicksOf, FullTable, Latest;
    BackfillHits();
    assert [] + Backfill(61) == Backfill(61);
    RetriedBatchIff([], Backfill(61), t);
    PriceTablesFromScratch(Backfill(61), "A");
  }

  lemma BackfillEnd()
    ensures Backfill(61) != [] && Sorted(Backfill(61)) && AllPrices(Backfill(61))
    ensures ApplyPrices(NO_PRICES, Backfill(61)).Some?
  {
    BackfillFacts(61);
    BackfillHits();
    hide ApplyPrices, HitAt;
  }

  method EmptyStore() returns (store: PriceStore)
    ensures fresh(store) && fresh(store.env) && store.Valid() && store.log == [] && store.cursor == ZERO_CURSOR
    ensures store.tables == NO_PRICES && store.dlq == [] && store.settled == [] && store.applied == [] && store.missed == {} && !store.retried
  {
    var env := new Surroundings(n => Committed, n => 0);
    store := new PriceStore(env);
  }

  /** A store in which 61 daily prices arrived and their batch was committed twice, the first time without an
      acknowledgement. Nothing was missed and nothing set aside, and still the oldest row of the window has no
      return where the one computed from the log has one. */
  method RetriedBackfill() returns (store: PriceStore)
    ensures store.Valid() && store.log == Backfill(61) && store.dlq == [] && store.missed == {} && store.retried
    ensures Storable(DayCloses(TicksOf(store.log, "A")))
    ensures var w := LogWindow(store.log);
            w != [] && w[0].ret.Some? && RowsAt(store.tables, "A") == [w[0].(ret := None)] + w[1..]
  {
    store := EmptyStore();
    BackfillEnd();
    hide Backfill, ApplyPrices, Sorted, InStep, Balanced, PricesAccounted, AllPrices, LogWindow, Storable, DayCloses, TicksOf,
         PassedPrices, AllAfter;
    AppendBackfill(store);
    var events := store.log;
    var err;
    ghost var fate;
    NothingPassed(events);
    err, fate := store.ApplyPriceBatch(events, Unacknowledged);
    BackfillTwice(store.tables);
    PassedAgain(events);
    err, fate := store.ApplyPriceBatch(events, Committed);
  }

  method AppendBackfill(store: PriceStore)
    requires store.Valid() && store.log == [] && store.cursor == ZERO_CURSOR && store.missed == {}
    modifies store`log, store`missed
    ensures store.Valid() && store.log == Backfill(61) && store.missed == {}
  {
    hide ApplyPrices, InStep, Balanced, PricesAccounted;
    var i := 0;
    assert Backfill(0) == [];
    while i < 61
      invariant 0 <= i <= 61 && store.Valid() && store.log == Backfill(i) && store.missed == {}
    {
      var ev := Quote(i, i, 0, 1.0);
      AppendsLast(i);
      store.Append(ev);
      i := i + 1;
    }
  }

  lemma AppendsLast(n: nat)
    ensures var ev := Quote(n, n, 0, 1.0);
            Insert(Backfill(n), ev) == Backfill(n + 1) && !(exists e :: e in Backfill(n) && Clash(e, ev)) &&
            After(ZERO_CURSOR, ev)
  {
    var ev, log := Quote(n, n, 0, 1.0), Backfill(n);
    forall e | e in log
      ensures !InOrder(ev, e) && !Clash(e, ev)
    {
      var i :| 0 <= i < n && log[i] == e;
    }
    InsertLast(log, ev);
    assert log + [ev] == Backfill(n + 1);
  }

  /** From the zero cursor the whole log is behind; once it was committed nothing is. */
  lemma NothingPassed(events: seq<Event>)
    ensures PassedPrices(events, ZERO_CURSOR, if events == [] then ZERO_CURSOR else CursorOf(events[|events| - 1]), events) == {}
    ensures AllAfter(ZERO_CURSOR, events)
  {
  }

  lemma PassedAgain(events: seq<Event>)
    requires events != []
    ensures var last := CursorOf(events[|events| - 1]);
            PassedPrices(events, last, last, events) == {} && !AllAfter(last, events)
  {
    assert events[|events| - 1] in events;
  }

  // ----- a price event that was recorded as dead twice -----

  /** The transaction that sets an event aside has no unique key either: when its commit is not acknowledged and the
      worker sets the event aside again, it is recorded as dead twice. */
  method RetriedLetter() returns (store: PriceStore)
    ensures store.Valid() && store.log == [NEXT_DAY] && store.retried
    ensures store.dlq == [DeadLetter(NEXT_DAY, EventTooStale), DeadLetter(NEXT_DAY, EventTooStale)]
  {
    store := EmptyStore();
    hide ApplyPrices, InStep, Balanced, PricesAccounted, PassedPrices, PriceStore.Valid, PriceStore.Blocked;
    LetterFacts();
    hide NEXT_DAY, Insert, After, Quote;
    store.Append(NEXT_DAY);
    var err := store.PersistApplyDLQ(NEXT_DAY, EventTooStale, Unacknowledged);
    err := store.PersistApplyDLQ(NEXT_DAY, EventTooStale, Committed);
  }

  lemma LetterFacts()
    ensures Insert([], NEXT_DAY) == [NEXT_DAY] && After(ZERO_CURSOR, NEXT_DAY) && !After(CursorOf(NEXT_DAY), NEXT_DAY)
  {
  }
}
