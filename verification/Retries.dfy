/** What recording prices a second time does to the tables: a batch whose commit was reported as failed is
    applied again by the worker that was kept, together with whatever has arrived in front of it. */
module Retries {
  import opened Decimals
  import opened Events
  import opened Options
  import opened Returns
  import opened FullTables
  import opened Prices

  // ----- what the trim makes of it -----

  /** A table with the return of its oldest row dropped. */
  function Dropped(w: seq<Row>, lost: bool): (r: seq<Row>)
    ensures |r| == |w| && (!lost ==> r == w)
  {
    if lost && w != [] then [w[0].(ret := None)] + w[1..] else w
  }

  /** The oldest date that is kept. */
  function Oldest(full: seq<Row>): int
    requires |full| >= WINDOW
  {
    full[|full| - WINDOW].date
  }

  /** Whether the oldest row that is kept has lost its return, when one more tick is recorded: on that row's date the
      previous close is gone, and a new date behind it trims the row. */
  predicate LosesNext(full: seq<Row>, lost: bool, t: Tick) {
    |full| > WINDOW &&
    (t.Date() == Oldest(full) || (lost && (t.Date() < Oldest(full) || HasDate(full, t.Date()))))
  }

  /** Recording in a trimmed table does to it what recording in the full table does to its latest rows, but for the
      return of the oldest one. */
  lemma RecordTrimmed(full: seq<Row>, lost: bool, t: Tick)
    requires InRowOrder(full) && RecordFull(full, t).Some? && (lost ==> |full| > WINDOW)
    ensures Record(Dropped(Latest(full, WINDOW), lost), t) ==
            Some(Dropped(Latest(RecordFull(full, t).value, WINDOW), LosesNext(full, lost, t)))
  {
    hide UtcDate, Round8, DailyReturn, PutRow, PreviousClose, InRowOrder, HasDate;
    if |full| > WINDOW {
      var m := |full| - WINDOW;
      var x, w0, y := full[..m], full[m], full[m + 1..];
      assert full == x + [w0] + y && Latest(full, WINDOW) == [w0] + y;
      PartsOf(full, m);
      if t.Date() < w0.date {
        TrimmedInFront(x, w0, y, lost, t);
      } else if t.Date() == w0.date {
        TrimmedOn(x, w0, y, lost, t);
      } else {
        TrimmedBehind(x, w0, y, lost, t);
      }
    }
  }

  lemma PartsOf(full: seq<Row>, m: nat)
    requires InRowOrder(full) && m < |full|
    ensures Earlier(full[..m], full[m].date) && Later(full[m + 1..], full[m].date) && InRowOrder(full[m + 1..])
  {
  }

  lemma TrimmedInFront(x: seq<Row>, w0: Row, y: seq<Row>, lost: bool, t: Tick)
    requires t.Date() < w0.date && Later(y, w0.date) && |y| == WINDOW - 1 && x != []
    requires RecordFull(x + [w0] + y, t).Some?
    ensures Record(Dropped([w0] + y, lost), t) == Some(Dropped([w0] + y, lost))
    ensures Latest(RecordFull(x + [w0] + y, t).value, WINDOW) == [w0] + y
  {
    hide UtcDate, Round8, DailyReturn, PutRow, PreviousClose;
    var row := RowFor(t, PreviousClose(x + [w0] + y, t.Date()));
    var w, v := [w0] + y, Dropped([w0] + y, lost);
    assert x + [w0] + y == x + w;
    PutInFront(x, w, row);
    PutInFront([], v, RowFor(t, None));
    PutOn([], RowFor(t, None));
    assert [] + v == v;
  }

  lemma TrimmedOn(x: seq<Row>, w0: Row, y: seq<Row>, lost: bool, t: Tick)
    requires t.Date() == w0.date && Earlier(x, w0.date) && Later(y, w0.date) && |y| == WINDOW - 1 && x != []
    requires RecordFull(x + [w0] + y, t).Some?
    ensures Record(Dropped([w0] + y, lost), t) == Some(Dropped(Latest(RecordFull(x + [w0] + y, t).value, WINDOW), true))
  {
    hide UtcDate, Round8, DailyReturn, PutRow, PreviousClose;
    var row := RowFor(t, PreviousClose(x + [w0] + y, t.Date()));
    var v := Dropped([w0] + y, lost);
    PutBetween(x, [w0], y, row);
    PutBetween([], [v[0]], y, RowFor(t, None));
    assert v == [] + [v[0]] + y;
    assert Latest(x + [row] + y, WINDOW) == [row] + y;
    assert ([row] + y)[1..] == y && [] + [RowFor(t, None)] + y == [RowFor(t, None)] + y;
  }

  lemma TrimmedBehind(x: seq<Row>, w0: Row, y: seq<Row>, lost: bool, t: Tick)
    requires w0.date < t.Date() && Earlier(x, w0.date) && InRowOrder(y) && |y| == WINDOW - 1 && x != []
    requires RecordFull(x + [w0] + y, t).Some?
    ensures Record(Dropped([w0] + y, lost), t) ==
            Some(Dropped(Latest(RecordFull(x + [w0] + y, t).value, WINDOW), lost && HasDate(x + [w0] + y, t.Date())))
  {
    hide UtcDate, Round8, DailyReturn, PutRow, PreviousClose, HasDate, InRowOrder, Latest;
    var d := t.Date();
    var prev := PreviousClose(x + [w0] + y, d);
    var row := RowFor(t, prev);
    var v0 := Dropped([w0] + y, lost)[0];
    assert Dropped([w0] + y, lost) == [v0] + y && v0.date == w0.date && v0.close == w0.close && row.date == d;
    hide RowFor;
    PutBehind(x + [w0], y, row);
    PutBehind([v0], y, row);
    PutLength(y, row);
    HasDateConcat(x + [w0], y, d);
    NotAmongEarlier(x + [w0], d);
    assert Record([v0] + y, t) == Some(Latest([v0] + PutRow(y, row), WINDOW));
    hide Record, Earlier, Dropped;
    LatestBehind(x, w0, v0, PutRow(y, row));
    assert Dropped([w0] + PutRow(y, row), lost) == [v0] + PutRow(y, row) by {
      SameDrop(w0, y, PutRow(y, row), lost);
    }
  }

  lemma SameDrop(w0: Row, y: seq<Row>, z: seq<Row>, lost: bool)
    ensures Dropped([w0] + z, lost) == [Dropped([w0] + y, lost)[0]] + z
  {
  }

  lemma NotAmongEarlier(x: seq<Row>, d: int)
    requires Earlier(x, d)
    ensures !HasDate(x, d)
  {
  }

  lemma LatestBehind(x: seq<Row>, w0: Row, v0: Row, z: seq<Row>)
    requires WINDOW - 1 <= |z| <= WINDOW
    ensures Latest([v0] + z, WINDOW) == if |z| == WINDOW then z else [v0] + z
    ensures Latest(x + [w0] + z, WINDOW) == if |z| == WINDOW then z else [w0] + z
  {
  }

  lemma {:induction false} PutLength(table: seq<Row>, row: Row)
    requires InRowOrder(table)
    ensures |PutRow(table, row)| == |table| + if HasDate(table, row.date) then 0 else 1
  {
    if table != [] {
      var n := |table| - 1;
      assert table == table[..n] + [table[n]];
      HasDateConcat(table[..n], [table[n]], row.date);
      HasDateSingle([table[n]], row.date);
      PutLength(table[..n], row);
      assert table[n].date < row.date ==> !HasDate(table[..n], row.date);
    }
  }

  // ----- recording a page of ticks again -----

  /** Records ticks on top of a trimmed table. */
  function RecordMore(table: seq<Row>, ticks: seq<Tick>): Option<seq<Row>> {
    if ticks == [] then Some(table)
    else
      match RecordMore(table, ticks[..|ticks| - 1])
      case None => None
      case Some(x) => Record(x, ticks[|ticks| - 1])
  }

  lemma RecordMoreSnoc(table: seq<Row>, ticks: seq<Tick>, t: Tick)
    ensures RecordMore(table, ticks + [t]) ==
            match RecordMore(table, ticks) case None => None case Some(x) => Record(x, t)
  {
    assert (ticks + [t])[..|ticks|] == ticks;
  }

  function LosesAfter(full: seq<Row>, ticks: seq<Tick>): bool
    requires RecordAllFull(full, ticks).Some?
  {
    if ticks == [] then false
    else
      var p := ticks[..|ticks| - 1];
      LosesNext(RecordAllFull(full, p).value, LosesAfter(full, p), ticks[|ticks| - 1])
  }

  lemma {:induction false} RecordMoreTrimmed(full: seq<Row>, ticks: seq<Tick>)
    requires InRowOrder(full) && RecordAllFull(full, ticks).Some?
    ensures RecordMore(Latest(full, WINDOW), ticks) ==
            Some(Dropped(Latest(RecordAllFull(full, ticks).value, WINDOW), LosesAfter(full, ticks)))
    ensures LosesAfter(full, ticks) ==> |RecordAllFull(full, ticks).value| > WINDOW
  {
    hide UtcDate, RecordFull, Record, InRowOrder, Dropped, LosesNext, Latest;
    if ticks != [] {
      var p, t := ticks[..|ticks| - 1], ticks[|ticks| - 1];
      RecordMoreTrimmed(full, p);
      RecordedDates(full, p);
      var x, lost := RecordAllFull(full, p).value, LosesAfter(full, p);
      RecordTrimmed(x, lost, t);
      OldestMoves(x, t);
      LosesNextNeeds(x, lost, t);
    }
  }

  lemma LosesNextNeeds(full: seq<Row>, lost: bool, t: Tick)
    ensures LosesNext(full, lost, t) ==> |full| > WINDOW
  {
    hide HasDate, UtcDate;
  }

  /** A tick on a new date behind the oldest one that is kept moves that one on, at most to the tick's date. */
  lemma OldestMoves(full: seq<Row>, t: Tick)
    requires InRowOrder(full) && RecordFull(full, t).Some?
    ensures var r := RecordFull(full, t).value;
            |r| == |full| + (if HasDate(full, t.Date()) then 0 else 1) &&
            (|full| >= WINDOW ==>
               var d, o := t.Date(), Oldest(full);
               if HasDate(full, d) || d < o then Oldest(r) == o else o < Oldest(r) <= d)
  {
    hide UtcDate, Round8, DailyReturn, PreviousClose, RecordFull, Front, Back, On, HasDate, Cut;
    RecordFullIs(full, t);
    Split(full, t.Date());
    SplitHasDate(full, t.Date());
    var x, on, y := Front(full, t.Date()), On(full, t.Date()), Back(full, t.Date());
    var row := RowFor(t, if x == [] then None else Some(x[|x| - 1].close));
    hide RowFor;
    if |full| >= WINDOW {
      OldestOfParts(x, on, y, row);
    }
  }

  lemma OldestOfParts(x: seq<Row>, on: seq<Row>, y: seq<Row>, row: Row)
    requires InRowOrder(x + on + y) && |x + on + y| >= WINDOW && |on| <= 1 && (on != [] ==> on[0].date == row.date)
    requires Earlier(x, row.date) && Later(y, row.date)
    ensures var o, n := Oldest(x + on + y), Oldest(x + [row] + y);
            if on != [] || row.date < o then n == o else o < n <= row.date
  {
    var full, r := x + on + y, x + [row] + y;
    var k := |r| - WINDOW;
    if |y| >= WINDOW {
      assert r[k] == y[|y| - WINDOW] == full[|full| - WINDOW];
      assert y[|y| - WINDOW] in y;
    } else if on == [] {
      assert full[|full| - WINDOW] == x[k - 1] && x[k - 1] in x;
      assert k < |x| ==> r[k] == x[k] == full[k] && x[k] in x;
    } else {
      assert k < |x| ==> r[k] == x[k] == full[k] && x[k] in x;
    }
  }

  /** A tick of the page falls on a date that was recorded before it. */
  predicate AgainOn(known: seq<Tick>, page: seq<Tick>, d: int) {
    exists i :: 0 <= i < |page| && page[i].Date() == d && HasTick(known + page[..i], d)
  }

  /** The full table has more dates than are kept, a tick of the page falls on the oldest of those that are kept, after
      another one of that date, and no later date is new. */
  ghost predicate LosesOldest(known: seq<Tick>, page: seq<Tick>, full: seq<Row>) {
    |full| > WINDOW && AgainOn(known, page, Oldest(full)) &&
    forall d :: HasDate(full, d) && Oldest(full) < d ==> HasTick(known, d)
  }

  lemma AgainOnSnoc(known: seq<Tick>, page: seq<Tick>, t: Tick, d: int)
    ensures AgainOn(known, page + [t], d) <==> AgainOn(known, page, d) || (t.Date() == d && HasTick(known + page, d))
  {
    hide UtcDate, HasTick;
    var all := page + [t];
    assert all[..|page|] == page && forall i :: 0 <= i < |page| ==> all[..i] == page[..i] && all[i] == page[i];
    if AgainOn(known, page, d) {
      var i :| 0 <= i < |page| && page[i].Date() == d && HasTick(known + page[..i], d);
      assert all[i].Date() == d && HasTick(known + all[..i], d);
    }
    if t.Date() == d && HasTick(known + page, d) {
      assert all[|page|].Date() == d && HasTick(known + all[..|page|], d);
    }
  }

  lemma AgainOnHas(known: seq<Tick>, page: seq<Tick>, d: int)
    ensures AgainOn(known, page, d) ==> HasTick(page, d)
  {
    hide UtcDate;
  }

  lemma HasTickConcat(a: seq<Tick>, b: seq<Tick>, d: int)
    ensures HasTick(a + b, d) <==> HasTick(a, d) || HasTick(b, d)
  {
    hide UtcDate;
    assert forall t :: t in a + b <==> t in a || t in b;
  }

  lemma LosesStep(known: seq<Tick>, u: seq<Tick>, t: Tick, full: seq<Row>, next: seq<Row>, lost: bool)
    requires (forall x :: x in u ==> x.Date() <= t.Date()) && InRowOrder(full)
    requires forall c :: HasDate(full, c) <==> HasTick(known, c) || HasTick(u, c)
    requires RecordFull(full, t) == Some(next) && (lost <==> LosesOldest(known, u, full))
    ensures LosesNext(full, lost, t) <==> LosesOldest(known, u + [t], next)
  {
    hide UtcDate, RecordFull, InRowOrder;
    var d := t.Date();
    OldestMoves(full, t);
    forall c
      ensures HasDate(next, c) <==> HasDate(full, c) || c == d
      ensures HasTick(known + u, c) <==> HasDate(full, c)
      ensures HasTick(u, c) ==> c <= d
    {
      RecordedDate(full, t, c);
      HasTickConcat(known, u, c);
    }
    if |next| > WINDOW {
      var n := Oldest(next);
      AgainOnSnoc(known, u, t, n);
      AgainOnHas(known, u, n);
    }
    hide HasDate, HasTick, AgainOn;
  }

  /** In a page in date order the return is lost exactly when the page hits the oldest date so. */
  lemma {:induction false} LosesIff(known: seq<Tick>, page: seq<Tick>, full: seq<Row>)
    requires InRowOrder(full) && InDateOrder(page) && forall c :: HasDate(full, c) <==> HasTick(known, c)
    requires RecordAllFull(full, page).Some?
    ensures LosesAfter(full, page) <==> LosesOldest(known, page, RecordAllFull(full, page).value)
  {
    hide UtcDate, RecordFull, InRowOrder, HasDate, HasTick, LosesNext, LosesOldest;
    if page == [] {
      NothingAgain(known, full);
    } else {
      var u, t := page[..|page| - 1], page[|page| - 1];
      assert page == u + [t];
      LosesIff(known, u, full);
      RecordedDates(full, u);
      LosesStep(known, u, t, RecordAllFull(full, u).value, RecordAllFull(full, page).value, LosesAfter(full, u));
    }
  }

  lemma NothingAgain(known: seq<Tick>, full: seq<Row>)
    ensures !LosesOldest(known, [], full)
  {
  }

  // ----- the window of one symbol -----

  function Window(closes: seq<Tick>): seq<Row>
    requires Storable(closes)
  {
    Latest(FullTable(closes), WINDOW)
  }

  /** How many dates have been trimmed. */
  function Trimmed(closes: seq<Tick>): (m: nat)
    ensures m <= |closes| && (closes != [] ==> m < |closes|)
  {
    if |closes| <= WINDOW then 0 else |closes| - WINDOW
  }

  /** Ticks known before, and a page that is recorded on top, of a history with these closes: a date has been trimmed, a
      tick of the page falls on the oldest date that is kept after another one of that date, and no later date is new. */
  predicate LosesReturn(known: seq<Tick>, page: seq<Tick>, closes: seq<Tick>) {
    var m := Trimmed(closes);
    m > 0 && AgainOn(known, page, closes[m].Date()) && forall k :: m < k < |closes| ==> HasTick(known, closes[k].Date())
  }

  /** A batch b was recorded behind p, and then a page q that has all its dates, with whatever else has arrived behind p:
      the window is that of p and q alone, but its oldest row may have lost its return. */
  lemma RecordedAgain(p: seq<Tick>, b: seq<Tick>, q: seq<Tick>)
    requires InDateOrder(p + b) && InDateOrder(p + q) && forall t :: t in b ==> HasTick(q, t.Date())
    requires Storable(DayCloses(p + b)) && Storable(DayCloses(p + q))
    ensures var closes := DayCloses(p + q);
            RecordMore(Window(DayCloses(p + b)), q) == Some(Dropped(Window(closes), LosesReturn(p + b, q, closes)))
  {
    hide UtcDate, DayCloses, RecordFull, RecordAllFull, Record, RecordMore, LosesOldest, Storable, Dropped, InRowOrder, HasDate, HasTick,
         FullTable, Latest, LosesReturn;
    var full, closes := FullTable(DayCloses(p + b)), DayCloses(p + q);
    FullFromScratch(p + b);
    FullFromScratch(p + q);
    RecordedTwice(p, b, q, full);
    EmptyInOrder();
    RecordedDates([], p + b);
    RecordedDates([], p + q);
    RecordMoreTrimmed(full, q);
    PageInOrder(p, q);
    LosesIff(p + b, q, full);
    LosesByCloses(p + b, q, closes);
  }

  lemma PageInOrder(p: seq<Tick>, q: seq<Tick>)
    requires InDateOrder(p + q)
    ensures InDateOrder(q)
  {
    hide UtcDate;
    assert forall i :: 0 <= i < |q| ==> (p + q)[|p| + i] == q[i];
  }

  lemma LosesByCloses(known: seq<Tick>, page: seq<Tick>, closes: seq<Tick>)
    requires Storable(closes) && InRowOrder(FullTable(closes))
    ensures LosesOldest(known, page, FullTable(closes)) <==> LosesReturn(known, page, closes)
  {
    hide UtcDate, Storable, Round8, DailyReturn, FullTable, AgainOn, HasTick;
    var full, m := FullTable(closes), Trimmed(closes);
    forall k | 0 <= k < |closes|
      ensures full[k].date == closes[k].Date() && full[k] in full && HasDate(full, full[k].date)
    {
      FullTableAt(closes, k);
      assert full[k] in full;
    }
    if |full| > WINDOW {
      assert Oldest(full) == closes[m].Date();
      forall d | HasDate(full, d) && Oldest(full) < d
        ensures exists k :: m < k < |closes| && closes[k].Date() == d
      {
        var r :| r in full && r.date == d;
        var k :| 0 <= k < |full| && full[k] == r;
        assert forall j :: 0 <= j < m ==> full[j].date < full[m].date;
      }
    }
  }

  /** The oldest row of a window that has trimmed a date has a return. */
  lemma OldestReturn(closes: seq<Tick>)
    requires Storable(closes) && Trimmed(closes) > 0
    ensures var w := Window(closes);
            w != [] && w[0].ret.Some? && Dropped(w, true) == [w[0].(ret := None)] + w[1..] && Dropped(w, true) != w
  {
    hide UtcDate, Round8, DailyReturn, Storable, FullTable;
    FullTableAt(closes, Trimmed(closes));
  }

  // ----- the tables -----

  lemma {:induction false} TicksConcat(a: seq<Event>, b: seq<Event>, s: string)
    ensures TicksOf(a + b, s) == TicksOf(a, s) + TicksOf(b, s)
  {
    if b == [] {
      assert a + b == a;
    } else {
      var p := b[..|b| - 1];
      TicksConcat(a, p, s);
      assert (a + b)[..|a + b| - 1] == a + p;
    }
  }

  /** The tables x hold the tables t with the symbol's own events recorded on top. */
  predicate TellsMore(t: Tables, x: Tables, events: seq<Event>, s: string) {
    RecordMore(RowsAt(t, s), TicksOf(events, s)) == Some(RowsAt(x, s)) &&
    MarkAt(x, s) == (if TicksOf(events, s) == [] then MarkAt(t, s) else LastMark(TicksOf(events, s))) &&
    (s in x.windows <==> s in t.windows || TicksOf(events, s) != [])
  }

  lemma OneMoreTells(t: Tables, x: Tables, p: seq<Event>, ev: Event, s: string)
    requires TellsMore(t, x, p, s)
    ensures match ApplyOne(x, ev)
            case Some(y) => TellsMore(t, y, p + [ev], s)
            case None => Quotes(ev, s) ==> RecordMore(RowsAt(t, s), TicksOf(p + [ev], s)).None?
  {
    hide Record, MarkOf, RecordMore;
    assert (p + [ev])[..|p|] == p;
    var ticks := TicksOf(p, s);
    assert TicksOf(p + [ev], s) == ticks + if Quotes(ev, s) then [TickOf(ev)] else [];
    hide TicksOf;
    if Quotes(ev, s) {
      RecordMoreSnoc(RowsAt(t, s), ticks, TickOf(ev));
    } else {
      assert ticks + [] == ticks;
    }
  }

  lemma {:induction false} MoreBySymbol(t: Tables, events: seq<Event>, s: string)
    ensures ApplyPrices(t, events).Some? ==> TellsMore(t, ApplyPrices(t, events).value, events, s)
  {
    if events == [] {
      hide Record;
    } else {
      hide ApplyOne, TellsMore;
      var p, ev := events[..|events| - 1], events[|events| - 1];
      assert events == p + [ev];
      MoreBySymbol(t, p, s);
      if ApplyPrices(t, p).Some? {
        OneMoreTells(t, ApplyPrices(t, p).value, p, ev, s);
      }
    }
  }

  /** When a batch fails, the window of one symbol cannot be recorded. */
  lemma {:induction false} MoreFails(t: Tables, events: seq<Event>) returns (s: string)
    requires ApplyPrices(t, events).None?
    ensures RecordMore(RowsAt(t, s), TicksOf(events, s)).None?
  {
    hide Record, TellsMore, MarkOf;
    var p, ev := events[..|events| - 1], events[|events| - 1];
    assert events == p + [ev];
    if ApplyPrices(t, p).None? {
      s := MoreFails(t, p);
      if Quotes(ev, s) {
        RecordMoreSnoc(RowsAt(t, s), TicksOf(p, s), TickOf(ev));
      } else {
        assert TicksOf(p, s) + [] == TicksOf(p, s);
      }
    } else {
      s := ev.payload.symbol;
      MoreBySymbol(t, p, s);
      OneMoreTells(t, ApplyPrices(t, p).value, p, ev, s);
    }
  }

  /** What happens to a symbol's window when a page is recorded on top of the events known before, in a log of all. */
  predicate LosesAt(known: seq<Event>, page: seq<Event>, all: seq<Event>, s: string) {
    LosesReturn(TicksOf(known, s), TicksOf(page, s), DayCloses(TicksOf(all, s)))
  }

  lemma {:induction false} TicksOfMember(events: seq<Event>, e: Event, s: string)
    requires e in events && Quotes(e, s)
    ensures TickOf(e) in TicksOf(events, s)
  {
    var p, last := events[..|events| - 1], events[|events| - 1];
    assert events == p + [last];
    if e != last {
      TicksOfMember(p, e, s);
    }
  }

  lemma {:induction false} TicksCovered(b: seq<Event>, page: seq<Event>, s: string)
    requires forall e :: e in b ==> e in page
    ensures forall t :: t in TicksOf(b, s) ==> HasTick(TicksOf(page, s), t.Date())
  {
    hide UtcDate;
    if b != [] {
      var p, last := b[..|b| - 1], b[|b| - 1];
      assert b == p + [last];
      TicksCovered(p, page, s);
      if Quotes(last, s) {
        TicksOfMember(page, last, s);
      }
    }
  }

  lemma PageAt(a: seq<Event>, b: seq<Event>, page: seq<Event>, t: Tables, right: Tables, s: string)
    requires Sorted(a + b) && Sorted(a + page) && forall e :: e in b ==> e in page
    requires ApplyPrices(NO_PRICES, a + b) == Some(t) && ApplyPrices(NO_PRICES, a + page) == Some(right)
    ensures var lost := LosesAt(a + b, page, a + page, s);
            RecordMore(RowsAt(t, s), TicksOf(page, s)) == Some(Dropped(RowsAt(right, s), lost)) &&
            (lost ==> var w := RowsAt(right, s);
                      w != [] && w[0].ret.Some? && Dropped(w, true) == [w[0].(ret := None)] + w[1..] && Dropped(w, true) != w)
  {
    hide ApplyPrices, RecordMore, Dropped, Storable, DayCloses, FullTable, Latest, MarkOf, Sorted, AgainOn, HasTick, Trimmed, LastMark, UtcDate;
    PriceTablesFromScratch(a + b, s);
    PriceTablesFromScratch(a + page, s);
    TicksInDateOrder(a + b, s);
    TicksInDateOrder(a + page, s);
    TicksConcat(a, b, s);
    TicksConcat(a, page, s);
    TicksCovered(b, page, s);
    RecordedAgain(TicksOf(a, s), TicksOf(b, s), TicksOf(page, s));
    var closes := DayCloses(TicksOf(a + page, s));
    if Trimmed(closes) > 0 {
      OldestReturn(closes);
    }
  }

  lemma MarkAtPage(a: seq<Event>, b: seq<Event>, page: seq<Event>, t: Tables, right: Tables, s: string)
    requires forall e :: e in b ==> e in page
    requires ApplyPrices(NO_PRICES, a + b) == Some(t) && ApplyPrices(NO_PRICES, a + page) == Some(right)
    ensures TicksOf(page, s) == [] ==> MarkAt(right, s) == MarkAt(t, s)
    ensures TicksOf(page, s) != [] ==> MarkAt(right, s) == LastMark(TicksOf(page, s))
    ensures s in right.windows <==> s in t.windows || TicksOf(page, s) != []
  {
    hide ApplyPrices, RecordMore, MarkOf, HasTick, UtcDate;
    MoreBySymbol(NO_PRICES, a + b, s);
    MoreBySymbol(NO_PRICES, a + page, s);
    TicksConcat(a, b, s);
    TicksConcat(a, page, s);
    TicksCovered(b, page, s);
    var x, y, z := TicksOf(a, s), TicksOf(b, s), TicksOf(page, s);
    hide TicksOf;
    if z == [] {
      NoTick(y, z);
      assert x + y == x && x + z == x;
    } else {
      assert (x + z)[|x + z| - 1] == z[|z| - 1];
    }
  }

  /** A batch b was applied behind a, and applied again with whatever has arrived behind a since: all the pages that are
      applied until the batch is covered, one after the other, are the page here. They succeed where the log's own
      prices can be applied, and the tables are those of the log exactly when no symbol's window has trimmed a date and
      is hit on its oldest date, after another tick of it, with no later date that is new. The oldest row of such a
      symbol loses the return that the log gives it. */
  lemma RetriedPageIff(a: seq<Event>, b: seq<Event>, page: seq<Event>, t: Tables)
    requires Sorted(a + b) && Sorted(a + page) && forall e :: e in b ==> e in page
    requires ApplyPrices(NO_PRICES, a + b) == Some(t) && ApplyPrices(NO_PRICES, a + page).Some?
    ensures ApplyPrices(t, page).Some?
    ensures ApplyPrices(t, page) == ApplyPrices(NO_PRICES, a + page) <==> forall s :: !LosesAt(a + b, page, a + page, s)
    ensures forall s :: LosesAt(a + b, page, a + page, s) ==>
              var w := RowsAt(ApplyPrices(NO_PRICES, a + page).value, s);
              w != [] && w[0].ret.Some? && RowsAt(ApplyPrices(t, page).value, s) == [w[0].(ret := None)] + w[1..]
  {
    hide ApplyPrices, RecordMore, TicksOf, Sorted, MarkOf, LosesAt, Dropped, LastMark;
    var right := ApplyPrices(NO_PRICES, a + page).value;
    if ApplyPrices(t, page).None? {
      var s := MoreFails(t, page);
      PageAt(a, b, page, t, right, s);
    }
    var x := ApplyPrices(t, page).value;
    forall s
      ensures RowsAt(x, s) == Dropped(RowsAt(right, s), LosesAt(a + b, page, a + page, s))
      ensures MarkAt(x, s) == MarkAt(right, s) && (s in x.windows <==> s in right.windows)
      ensures LosesAt(a + b, page, a + page, s) ==>
                var w := RowsAt(right, s);
                w != [] && w[0].ret.Some? && Dropped(w, true) == [w[0].(ret := None)] + w[1..] && Dropped(w, true) != w
    {
      PageAt(a, b, page, t, right, s);
      MarkAtPage(a, b, page, t, right, s);
      MoreBySymbol(t, page, s);
    }
    if forall s :: !LosesAt(a + b, page, a + page, s) {
      assert forall s :: SameAt(x, right, s);
      SameEverywhere(x, right);
    }
    hide SameAt;
  }

  /** One of the ticks falls on the oldest date of the window, and the date before it has been trimmed. */
  predicate HitsOldest(closes: seq<Tick>, ticks: seq<Tick>) {
    Trimmed(closes) > 0 && HasTick(ticks, closes[Trimmed(closes)].Date())
  }

  /** When nothing has arrived the condition is short. */
  lemma LosesSame(p: seq<Tick>, b: seq<Tick>)
    requires InDateOrder(p + b)
    ensures LosesReturn(p + b, b, DayCloses(p + b)) <==> HitsOldest(DayCloses(p + b), b)
  {
    hide UtcDate, DayCloses, InDateOrder, Trimmed;
    var closes, all := DayCloses(p + b), p + b;
    forall k | 0 <= k < |closes|
      ensures HasTick(all, closes[k].Date())
    {
      var i := DayCloseIsLast(all, k);
      assert all[i] in all;
    }
    if Trimmed(closes) > 0 {
      var d := closes[Trimmed(closes)].Date();
      if HasTick(b, d) {
        var x :| x in b && x.Date() == d;
        var i :| 0 <= i < |b| && b[i] == x;
        HasTickConcat(all, b[..i], d);
        hide HasTick;
        assert AgainOn(all, b, d);
      }
      AgainOnHas(all, b, d);
    }
    hide HasTick, AgainOn;
  }

  /** The batch has a tick of the symbol on its window's oldest date, and the date before it was trimmed. */
  predicate HitAt(all: seq<Event>, batch: seq<Event>, s: string) {
    HitsOldest(DayCloses(TicksOf(all, s)), TicksOf(batch, s))
  }

  /** The same batch alone, applied again: it succeeds, and the tables are still those from scratch exactly when no
      symbol of the batch has a tick on its window's oldest date with a trimmed date before it. */
  lemma RetriedBatchIff(a: seq<Event>, b: seq<Event>, t: Tables)
    requires Sorted(a + b) && ApplyPrices(NO_PRICES, a + b) == Some(t)
    ensures ApplyPrices(t, b).Some?
    ensures ApplyPrices(t, b).value == t <==> forall s :: !HitAt(a + b, b, s)
    ensures forall s :: HitAt(a + b, b, s) ==>
              RowsAt(t, s) != [] && RowsAt(t, s)[0].ret.Some? &&
              RowsAt(ApplyPrices(t, b).value, s) == [RowsAt(t, s)[0].(ret := None)] + RowsAt(t, s)[1..]
  {
    hide ApplyPrices, Sorted, HitAt, LosesAt;
    RetriedPageIff(a, b, b, t);
    forall s
      ensures LosesAt(a + b, b, a + b, s) <==> HitAt(a + b, b, s)
    {
      LosesAtSame(a, b, s);
    }
  }

  lemma LosesAtSame(a: seq<Event>, b: seq<Event>, s: string)
    requires Sorted(a + b)
    ensures LosesAt(a + b, b, a + b, s) <==> HitAt(a + b, b, s)
  {
    hide DayCloses, TicksOf, Sorted, HitsOldest, LosesReturn, InDateOrder;
    TicksInDateOrder(a + b, s);
    TicksConcat(a, b, s);
    LosesSame(TicksOf(a, s), TicksOf(b, s));
  }

  /** A retried batch that loses nothing is as if it had come once, whatever follows it in its page. */
  lemma RetriedPageIsRight(a: seq<Event>, b: seq<Event>, rest: seq<Event>, t: Tables)
    requires Sorted(a + b) && ApplyPrices(NO_PRICES, a + b) == Some(t)
    requires forall s :: !HitAt(a + b, b, s)
    ensures ApplyPrices(t, b + rest) == ApplyPrices(NO_PRICES, a + b + rest)
  {
    hide ApplyPrices, HitAt, Sorted;
    RetriedBatchIff(a, b, t);
    ApplyPricesConcat(t, b, rest);
    ApplyPricesConcat(NO_PRICES, a + b, rest);
  }
}
