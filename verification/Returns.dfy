/** The rolling window of daily returns of one symbol, maintained tick by tick, against its computation from
    the full price history. */
module Returns {
  import opened Decimals
  import opened Positions
  import opened Events
  import opened Options

  /** The UTC date of a time, as a day number. */
  function UtcDate(time: int): int {
    time / 86400000000000
  }

  /** One price event of the symbol. */
  datatype Tick = Tick(price: Price, asOf: Cursor) {
    function Date(): int {
      UtcDate(asOf.time)
    }
  }

  /** A row of symbol_returns. */
  datatype Row = Row(date: int, close: real, ret: Option<real>, asOf: Cursor)

  const WINDOW: nat := 60

  /** The return stored for a close after a previous stored close. */
  function DailyReturn(prevClose: real, close: real): real
    requires prevClose > 0.0
  {
    Round10(Div16(close, prevClose) - 1.0)
  }

  /** A date lasts a day, and starts at midnight. */
  lemma DateSpansDay(time: int)
    ensures UtcDate(time) * 86400000000000 <= time < (UtcDate(time) + 1) * 86400000000000
  {
  }

  /** The previous close and the return give the close back: off by at most half a unit of the tenth and
      half a unit of the sixteenth decimal per unit of the previous close. */
  lemma ReturnExplainsClose(prevClose: real, close: real)
    requires prevClose > 0.0
    ensures Abs(Worth(prevClose, 1.0 + DailyReturn(prevClose, close)) - close)
            <= Worth(prevClose, 0.00000000005 + HalfUlps16(1.0))
  {
    hide Div16, Round10;
    var q, d, r := close / prevClose, Div16(close, prevClose), DailyReturn(prevClose, close);
    assert q * prevClose == close;
    Div16Error(close, prevClose);
    Round10Error(d - 1.0);
    assert Abs(1.0 + r - q) <= 0.00000000005 + HalfUlps16(1.0);
    MulBound(prevClose, 1.0 + r - q, 0.00000000005 + HalfUlps16(1.0));
    assert prevClose * (1.0 + r - q) == prevClose * (1.0 + r) - prevClose * q;
  }

  // ----- the incremental maintenance -----

  /** The close of the latest recorded date before d. */
  function PreviousClose(table: seq<Row>, d: int): Option<real> {
    if table == [] then None
    else if table[|table| - 1].date < d then Some(table[|table| - 1].close)
    else PreviousClose(table[..|table| - 1], d)
  }

  /** Insert the row, or replace the row of its date; rows are listed by date. */
  function PutRow(table: seq<Row>, row: Row): seq<Row> {
    if table == [] || table[|table| - 1].date < row.date then table + [row]
    else if table[|table| - 1].date == row.date then table[..|table| - 1] + [row]
    else PutRow(table[..|table| - 1], row) + [table[|table| - 1]]
  }

  /** Keep the latest n dates. */
  function Latest<T>(table: seq<T>, n: nat): seq<T> {
    if |table| <= n then table else table[|table| - n..]
  }

  /** The row a tick is stored as, given the previous close. */
  function RowFor(t: Tick, prev: Option<real>): Row
    requires prev.Some? ==> prev.value > 0.0
  {
    Row(t.Date(), Round8(t.price), if prev.None? then None else Some(DailyReturn(prev.value, t.price)), t.asOf)
  }

  /** Upsert and trim for one tick. None when the stored previous close is not positive, which fails the
      whole batch. */
  function Record(table: seq<Row>, t: Tick): Option<seq<Row>> {
    var prev := PreviousClose(table, t.Date());
    if prev.Some? && prev.value <= 0.0 then None else Some(Latest(PutRow(table, RowFor(t, prev)), WINDOW))
  }

  function RecordAll(ticks: seq<Tick>): Option<seq<Row>> {
    if ticks == [] then Some([])
    else
      match RecordAll(ticks[..|ticks| - 1])
      case None => None
      case Some(table) => Record(table, ticks[|ticks| - 1])
  }

  // ----- from scratch -----

  predicate InDateOrder(ticks: seq<Tick>) {
    forall i, j :: 0 <= i < j < |ticks| ==> ticks[i].Date() <= ticks[j].Date()
  }

  /** The last tick of every date that has one. */
  function DayCloses(ticks: seq<Tick>): seq<Tick> {
    if ticks == [] then [] else CloseAdded(DayCloses(ticks[..|ticks| - 1]), ticks[|ticks| - 1])
  }

  /** A tick on the last date replaces that date's close. */
  function CloseAdded(closes: seq<Tick>, t: Tick): (r: seq<Tick>)
    ensures r != []
  {
    if closes != [] && closes[|closes| - 1].Date() == t.Date() then closes[..|closes| - 1] + [t] else closes + [t]
  }

  /** Every close but the latest is at least half a unit in the eighth decimal, so it is not stored as zero. */
  predicate Storable(closes: seq<Tick>) {
    forall i :: 0 <= i < |closes| - 1 ==> Round8(closes[i].price) > 0.0
  }

  /** The stored close of the date before the i-th. */
  function CloseBefore(closes: seq<Tick>, i: nat): (r: Option<real>)
    requires Storable(closes) && i < |closes|
    ensures r.Some? ==> r.value > 0.0
  {
    if i == 0 then None else Some(Round8(closes[i - 1].price))
  }

  /** The full table of a price history: every date with its last close and its return against the stored
      close of the date before it. */
  function FullTable(closes: seq<Tick>): (r: seq<Row>)
    requires Storable(closes)
    ensures |r| == |closes|
  {
    seq(|closes|, i requires 0 <= i < |closes| => RowFor(closes[i], CloseBefore(closes, i)))
  }

  // ----- what the day closes are -----

  /** They end with the latest tick, and each date comes once, in order. */
  lemma {:induction false} DayClosesAscend(ticks: seq<Tick>)
    requires InDateOrder(ticks)
    ensures var c := DayCloses(ticks);
            (ticks != [] ==> c != [] && c[|c| - 1] == ticks[|ticks| - 1]) &&
            forall i, j :: 0 <= i < j < |c| ==> c[i].Date() < c[j].Date()
  {
    hide UtcDate;
    if ticks != [] {
      var p, t := ticks[..|ticks| - 1], ticks[|ticks| - 1];
      DayClosesAscend(p);
      var d := DayCloses(p);
      if d != [] {
        var last := ticks[|ticks| - 2];
        assert d[|d| - 1] == last && last.Date() <= t.Date();
        hide InDateOrder, DayCloses;
        assert DayCloses(ticks) == CloseAdded(d, t);
        AddedAscends(d, t);
      }
    }
  }

  lemma AddedAscends(d: seq<Tick>, t: Tick)
    requires forall i, j :: 0 <= i < j < |d| ==> d[i].Date() < d[j].Date()
    requires d != [] ==> d[|d| - 1].Date() <= t.Date()
    ensures var c := CloseAdded(d, t);
            c[|c| - 1] == t && forall i, j :: 0 <= i < j < |c| ==> c[i].Date() < c[j].Date()
  {
    hide UtcDate;
    var c := CloseAdded(d, t);
    forall i, j | 0 <= i < j < |c|
      ensures c[i].Date() < c[j].Date()
    {
      if j == |c| - 1 && i < |d| - 1 {
        assert d[i].Date() < d[|d| - 1].Date();
      }
    }
  }

  /** The i-th tick is the last one of its date. */
  predicate LastOfDate(ticks: seq<Tick>, i: nat)
    requires i < |ticks|
  {
    forall j :: i < j < |ticks| ==> ticks[j].Date() != ticks[i].Date()
  }

  /** Each of them is the last tick of its date. */
  lemma {:induction false} DayCloseIsLast(ticks: seq<Tick>, k: nat) returns (i: nat)
    requires InDateOrder(ticks) && k < |DayCloses(ticks)|
    ensures i < |ticks| && ticks[i] == DayCloses(ticks)[k] && LastOfDate(ticks, i)
  {
    var p, t := ticks[..|ticks| - 1], ticks[|ticks| - 1];
    var d, c := DayCloses(p), DayCloses(ticks);
    DayClosesAscend(ticks);
    if k == |c| - 1 {
      i := |ticks| - 1;
    } else {
      assert k < |d| && c[k] == d[k];
      i := DayCloseIsLast(p, k);
      assert c[k].Date() < c[|c| - 1].Date();
      assert forall j :: i < j < |p| ==> ticks[j] == p[j];
    }
  }

  /** Every date with a tick has a close. */
  lemma {:induction false} DayCloseOf(ticks: seq<Tick>, t: Tick) returns (k: nat)
    requires t in ticks
    ensures k < |DayCloses(ticks)| && DayCloses(ticks)[k].Date() == t.Date()
  {
    var p, last := ticks[..|ticks| - 1], ticks[|ticks| - 1];
    var d, c := DayCloses(p), DayCloses(ticks);
    if t == last {
      k := |c| - 1;
    } else {
      assert ticks == p + [last];
      k := DayCloseOf(p, t);
      assert c[k].Date() == d[k].Date();
    }
  }

  // ----- the window equals the recomputation -----

  lemma CloseBeforeKept(closes: seq<Tick>, i: nat, t: Tick)
    requires i < |closes| && Storable(closes + [t])
    ensures Storable(closes) && CloseBefore(closes + [t], i) == CloseBefore(closes, i)
  {
    forall j | 0 <= j < |closes|
      ensures Round8(closes[j].price) > 0.0
    {
      assert (closes + [t])[j] == closes[j];
    }
    assert i > 0 ==> (closes + [t])[i - 1] == closes[i - 1];
    hide Round8;
  }

  lemma FullTableAt(closes: seq<Tick>, i: nat)
    requires Storable(closes) && i < |closes|
    ensures FullTable(closes)[i] == RowFor(closes[i], CloseBefore(closes, i))
  {
    hide Storable, CloseBefore, RowFor;
  }

  lemma RowKept(closes: seq<Tick>, t: Tick, i: nat)
    requires Storable(closes + [t]) && Storable(closes) && i < |closes|
    ensures FullTable(closes + [t])[i] == FullTable(closes)[i]
  {
    FullTableAt(closes + [t], i);
    FullTableAt(closes, i);
    CloseBeforeKept(closes, i, t);
    hide FullTable, Storable, CloseBefore, RowFor;
  }

  /** One more date adds one row. */
  lemma FullTableSnoc(closes: seq<Tick>, t: Tick)
    requires Storable(closes + [t])
    ensures Storable(closes)
    ensures FullTable(closes + [t]) == FullTable(closes) + [RowFor(t, CloseBefore(closes + [t], |closes|))]
  {
    hide RowFor, CloseBefore, FullTable;
    if closes != [] {
      CloseBeforeKept(closes, 0, t);
    }
    hide Storable;
    var x, y := FullTable(closes + [t]), FullTable(closes) + [RowFor(t, CloseBefore(closes + [t], |closes|))];
    forall i: nat | i < |closes|
      ensures x[i] == y[i]
    {
      RowKept(closes, t, i);
    }
    FullTableAt(closes + [t], |closes|);
    assert x == y;
  }

  /** In a window of rows in front of the tick's date, the previous close is the latest row's. */
  lemma RecordNewDate(table: seq<Row>, t: Tick)
    requires table != [] ==> table[|table| - 1].date < t.Date()
    ensures PreviousClose(table, t.Date()) == if table == [] then None else Some(table[|table| - 1].close)
    ensures forall row: Row :: row.date == t.Date() ==> PutRow(table, row) == table + [row]
  {
  }

  lemma RecordSameDate(table: seq<Row>, t: Tick)
    requires table != [] && table[|table| - 1].date == t.Date()
    requires |table| > 1 ==> table[|table| - 2].date < t.Date()
    ensures PreviousClose(table, t.Date()) == if |table| == 1 then None else Some(table[|table| - 2].close)
    ensures forall row: Row :: row.date == t.Date() ==> PutRow(table, row) == table[..|table| - 1] + [row]
  {
    RecordNewDate(table[..|table| - 1], t);
  }

  lemma LatestSnoc(table: seq<Row>, row: Row)
    ensures Latest(Latest(table, WINDOW) + [row], WINDOW) == Latest(table + [row], WINDOW)
  {
  }

  lemma LatestReplace(table: seq<Row>, row: Row)
    requires table != []
    ensures var w := Latest(table, WINDOW);
            Latest(w[..|w| - 1] + [row], WINDOW) == Latest(table[..|table| - 1] + [row], WINDOW)
  {
  }

  lemma LatestEnds(table: seq<Row>, row: Row)
    ensures var w := Latest(table + [row], WINDOW);
            w != [] && w[|w| - 1] == row && (|w| == 1 <==> table == []) &&
            (table != [] ==> w[|w| - 2] == table[|table| - 1])
  {
  }

  /** The last row of a full table is that of the last close. */
  lemma LastRow(closes: seq<Tick>)
    requires Storable(closes) && closes != []
    ensures var row, t := FullTable(closes)[|closes| - 1], closes[|closes| - 1];
            row.date == t.Date() && row.close == Round8(t.price)
  {
    FullTableAt(closes, |closes| - 1);
    hide FullTable, Storable, CloseBefore, Round8;
  }

  lemma LatestLast(table: seq<Row>)
    ensures Latest(table, WINDOW) == [] <==> table == []
    ensures table != [] ==> var w := Latest(table, WINDOW); w[|w| - 1] == table[|table| - 1]
  {
  }

  /** A tick on a new date, after the history whose closes are d. */
  lemma NewDateRecorded(d: seq<Tick>, t: Tick)
    requires Storable(d) && (d != [] ==> d[|d| - 1].Date() < t.Date())
    ensures Record(Latest(FullTable(d), WINDOW), t) ==
            if Storable(d + [t]) then Some(Latest(FullTable(d + [t]), WINDOW)) else None
  {
    hide Round8, FullTable, PutRow, PreviousClose, Latest, DailyReturn, UtcDate, Storable;
    var table := FullTable(d);
    var w := Latest(table, WINDOW);
    LatestLast(table);
    if d != [] {
      LastRow(d);
      LastCloseDecides(d, t);
    } else {
      SingleIsStorable(t);
    }
    RecordNewDate(w, t);
    if Storable(d + [t]) {
      FullTableSnoc(d, t);
      LatestSnoc(table, RowFor(t, CloseBefore(d + [t], |d|)));
    }
  }

  lemma SingleIsStorable(t: Tick)
    ensures Storable([] + [t])
  {
  }

  lemma LastCloseDecides(d: seq<Tick>, t: Tick)
    requires Storable(d) && d != []
    ensures Storable(d + [t]) <==> Round8(d[|d| - 1].price) > 0.0
  {
    hide Round8;
    var e := d + [t];
    assert e[|d| - 1] == d[|d| - 1];
    assert forall i :: 0 <= i < |d| ==> e[i] == d[i];
  }

  /** A later tick on the last date replaces that date's close. */
  lemma SameDateRecorded(d: seq<Tick>, last: Tick, t: Tick)
    requires Storable(d + [last]) && last.Date() == t.Date() && (d != [] ==> d[|d| - 1].Date() < t.Date())
    ensures Storable(d + [t])
    ensures Record(Latest(FullTable(d + [last]), WINDOW), t) == Some(Latest(FullTable(d + [t]), WINDOW))
  {
    hide Round8, FullTable, PutRow, PreviousClose, Latest, DailyReturn, UtcDate, Storable, CloseBefore;
    SameStorable(d, last, t);
    FullTableSnoc(d, last);
    FullTableSnoc(d, t);
    SameCloseBefore(d, last, t);
    var table, prev := FullTable(d), CloseBefore(d + [t], |d|);
    var before, row := RowFor(last, prev), RowFor(t, prev);
    var w := Latest(table + [before], WINDOW);
    LatestEnds(table, before);
    if d != [] {
      LastRow(d);
    }
    RecordSameDate(w, t);
    LatestReplace(table + [before], row);
    assert (table + [before])[..|table + [before]| - 1] == table;
  }

  lemma SameStorable(d: seq<Tick>, last: Tick, t: Tick)
    requires Storable(d + [last])
    ensures Storable(d + [t])
  {
    hide Round8;
    forall i | 0 <= i < |d|
      ensures Round8((d + [t])[i].price) > 0.0
    {
      assert (d + [t])[i] == (d + [last])[i];
    }
  }

  lemma SameCloseBefore(d: seq<Tick>, last: Tick, t: Tick)
    requires Storable(d + [last]) && Storable(d + [t])
    ensures CloseBefore(d + [last], |d|) == CloseBefore(d + [t], |d|) == if d == [] then None else Some(Round8(d[|d| - 1].price))
  {
    hide Round8;
  }

  /** The incrementally maintained window is the window computed from scratch: exactly the last 60 dates of
      the full history, each with its last close and its return against the previous date's stored close,
      even when that row has been trimmed. Recording fails just when a close that is not the latest would be
      stored as zero. */
  lemma {:induction false} WindowIsFromScratch(ticks: seq<Tick>)
    requires InDateOrder(ticks)
    ensures RecordAll(ticks) ==
            if Storable(DayCloses(ticks)) then Some(Latest(FullTable(DayCloses(ticks)), WINDOW)) else None
  {
    if ticks == [] {
      assert Latest(FullTable([]), WINDOW) == [];
    } else {
      var p, t := ticks[..|ticks| - 1], ticks[|ticks| - 1];
      WindowIsFromScratch(p);
      DayClosesAscend(p);
      var d := DayCloses(p);
      assert d != [] ==> d[|d| - 1] == ticks[|ticks| - 2] && d[|d| - 1].Date() <= t.Date();
      assert ticks == p + [t];
      hide UtcDate, RecordAll, DayCloses, InDateOrder, Storable, FullTable, Latest;
      if d != [] && d[|d| - 1].Date() == t.Date() {
        OneMoreTickSameDate(p, t);
      } else {
        OneMoreTickNewDate(p, t);
      }
    }
  }

  lemma OneMoreTickNewDate(p: seq<Tick>, t: Tick)
    requires var d := DayCloses(p); d != [] ==> d[|d| - 1].Date() < t.Date()
    requires RecordAll(p) == if Storable(DayCloses(p)) then Some(Latest(FullTable(DayCloses(p)), WINDOW)) else None
    ensures var c := DayCloses(p + [t]);
            RecordAll(p + [t]) == if Storable(c) then Some(Latest(FullTable(c), WINDOW)) else None
  {
    var d := DayCloses(p);
    assert (p + [t])[..|p|] == p;
    assert DayCloses(p + [t]) == d + [t];
    hide DayCloses, Record, FullTable, Latest;
    if Storable(d) {
      NewDateRecorded(d, t);
    } else {
      StillNotStorable(d, d + [t]);
    }
  }

  lemma OneMoreTickSameDate(p: seq<Tick>, t: Tick)
    requires var d := DayCloses(p);
             d != [] && d[|d| - 1].Date() == t.Date() && (|d| > 1 ==> d[|d| - 2].Date() < t.Date())
    requires RecordAll(p) == if Storable(DayCloses(p)) then Some(Latest(FullTable(DayCloses(p)), WINDOW)) else None
    ensures var c := DayCloses(p + [t]);
            RecordAll(p + [t]) == if Storable(c) then Some(Latest(FullTable(c), WINDOW)) else None
  {
    var d := DayCloses(p);
    var e, last := d[..|d| - 1], d[|d| - 1];
    assert (p + [t])[..|p|] == p;
    assert d == e + [last] && DayCloses(p + [t]) == e + [t];
    hide DayCloses, Record, FullTable, Latest;
    if Storable(d) {
      SameDateRecorded(e, last, t);
    } else if Storable(e + [t]) {
      SameStorable(e, t, last);
      assert false;
    }
  }

  lemma StillNotStorable(d: seq<Tick>, c: seq<Tick>)
    requires !Storable(d) && d <= c
    ensures !Storable(c)
  {
    hide Round8;
    var i :| 0 <= i < |d| - 1 && Round8(d[i].price) <= 0.0;
    assert c[i] == d[i];
  }

  /** Once recording has failed, every longer history fails: the partition is stuck at the batch. */
  lemma {:induction false} RecordingStaysFailed(ticks: seq<Tick>, more: seq<Tick>)
    requires RecordAll(ticks).None?
    ensures RecordAll(ticks + more).None?
  {
    if more == [] {
      assert ticks + more == ticks;
    } else {
      RecordingStaysFailed(ticks, more[..|more| - 1]);
      assert (ticks + more)[..|ticks + more| - 1] == ticks + more[..|more| - 1];
    }
  }
}
