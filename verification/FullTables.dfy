/** The table of daily returns without its trim to the latest dates, and what recording a page of ticks over part of a
    history does to it. */
module FullTables {
  import opened Decimals
  import opened Options
  import opened Returns

  // ----- tables that are not trimmed -----

  /** Upsert for one tick, without the trim. */
  function RecordFull(full: seq<Row>, t: Tick): Option<seq<Row>> {
    var prev := PreviousClose(full, t.Date());
    if prev.Some? && prev.value <= 0.0 then None else Some(PutRow(full, RowFor(t, prev)))
  }

  function RecordAllFull(full: seq<Row>, ticks: seq<Tick>): Option<seq<Row>> {
    if ticks == [] then Some(full)
    else
      match RecordAllFull(full, ticks[..|ticks| - 1])
      case None => None
      case Some(x) => RecordFull(x, ticks[|ticks| - 1])
  }

  lemma RecordAllFullSnoc(full: seq<Row>, ticks: seq<Tick>, t: Tick)
    ensures RecordAllFull(full, ticks + [t]) ==
            match RecordAllFull(full, ticks) case None => None case Some(x) => RecordFull(x, t)
  {
    assert (ticks + [t])[..|ticks|] == ticks;
  }

  /** The rows of a table are in date order. */
  predicate InRowOrder(table: seq<Row>) {
    forall i, j :: 0 <= i < j < |table| ==> table[i].date < table[j].date
  }

  predicate Earlier(rows: seq<Row>, d: int) {
    forall r :: r in rows ==> r.date < d
  }

  predicate Later(rows: seq<Row>, d: int) {
    forall r :: r in rows ==> d < r.date
  }

  predicate HasDate(rows: seq<Row>, d: int) {
    exists r :: r in rows && r.date == d
  }

  lemma {:induction false} CloseBehind(x: seq<Row>, w: seq<Row>, d: int)
    requires Earlier(x, d)
    ensures PreviousClose(x + w, d) ==
            if PreviousClose(w, d).Some? || x == [] then PreviousClose(w, d) else Some(x[|x| - 1].close)
  {
    if w == [] {
      assert x + w == x;
      assert x != [] ==> x[|x| - 1] in x;
    } else {
      hide Earlier, PreviousClose;
      var p, last := w[..|w| - 1], w[|w| - 1];
      assert w == p + [last] && x + w == (x + p) + [last];
      CloseUnfolds(p, last, d);
      CloseUnfolds(x + p, last, d);
      CloseBehind(x, p, d);
    }
  }

  lemma CloseUnfolds(p: seq<Row>, last: Row, d: int)
    ensures PreviousClose(p + [last], d) == if last.date < d then Some(last.close) else PreviousClose(p, d)
  {
    assert (p + [last])[..|p|] == p;
  }

  /** Rows in front of the date stay where they are, and the last of them counts when there is none behind. */
  lemma PutBehind(x: seq<Row>, w: seq<Row>, row: Row)
    requires Earlier(x, row.date)
    ensures PutRow(x + w, row) == x + PutRow(w, row)
    ensures PreviousClose(x + w, row.date) ==
            if PreviousClose(w, row.date).Some? || x == [] then PreviousClose(w, row.date) else Some(x[|x| - 1].close)
  {
    CloseBehind(x, w, row.date);
    RowsStay(x, w, row);
    hide PutRow, PreviousClose, Earlier;
  }

  lemma {:induction false} RowsStay(x: seq<Row>, w: seq<Row>, row: Row)
    requires Earlier(x, row.date)
    ensures PutRow(x + w, row) == x + PutRow(w, row)
  {
    if w == [] {
      assert x + w == x;
      PutLast(x, row);
    } else {
      hide Earlier;
      var all, n := x + w, |w| - 1;
      assert all[..|all| - 1] == x + w[..n] && all[|all| - 1] == w[n];
      RowsStay(x, w[..n], row);
    }
  }

  lemma PutLast(x: seq<Row>, row: Row)
    requires Earlier(x, row.date)
    ensures PutRow(x, row) == x + [row]
  {
    assert x != [] ==> x[|x| - 1] in x;
  }

  /** Rows behind the date do not matter. */
  lemma {:induction false} PutInFront(x: seq<Row>, w: seq<Row>, row: Row)
    requires Later(w, row.date)
    ensures PutRow(x + w, row) == PutRow(x, row) + w
    ensures PreviousClose(x + w, row.date) == PreviousClose(x, row.date)
  {
    if w == [] {
      assert x + w == x;
    } else {
      var p, last := w[..|w| - 1], w[|w| - 1];
      assert last in w && w == p + [last] && (x + w)[..|x + w| - 1] == x + p;
      PutInFront(x, p, row);
      assert PutRow(x, row) + p + [last] == PutRow(x, row) + w;
    }
  }

  /** Between the rows in front of the date and those behind it there is at most the row of the date. */
  lemma PutBetween(x: seq<Row>, on: seq<Row>, y: seq<Row>, row: Row)
    requires Earlier(x, row.date) && Later(y, row.date) && |on| <= 1 && (on != [] ==> on[0].date == row.date)
    ensures PutRow(x + on + y, row) == x + [row] + y
    ensures PreviousClose(x + on + y, row.date) == if x == [] then None else Some(x[|x| - 1].close)
  {
    PutInFront(x + on, y, row);
    PutBehind(x, on, row);
    PutOn(on, row);
  }

  lemma PutOn(on: seq<Row>, row: Row)
    requires |on| <= 1 && (on != [] ==> on[0].date == row.date)
    ensures PutRow(on, row) == [row] && PreviousClose(on, row.date) == None
  {
    if on != [] {
      assert on[..0] == [];
    }
  }

  /** How many rows of a table lie in front of a date. */
  function Cut(table: seq<Row>, d: int): (k: nat)
    ensures k <= |table|
  {
    if table == [] || table[|table| - 1].date < d then |table| else Cut(table[..|table| - 1], d)
  }

  lemma {:induction false} CutFacts(table: seq<Row>, d: int)
    requires InRowOrder(table)
    ensures Earlier(table[..Cut(table, d)], d)
    ensures forall r :: r in table[Cut(table, d)..] ==> d <= r.date
  {
    if table != [] {
      var p, last := table[..|table| - 1], table[|table| - 1];
      if last.date < d {
        UpToLast(table);
      } else {
        assert InRowOrder(p);
        hide InRowOrder;
        CutFacts(p, d);
        var k := Cut(p, d);
        assert table[..k] == p[..k] && table[k..] == p[k..] + [last];
      }
    }
  }

  lemma UpToLast(table: seq<Row>)
    requires InRowOrder(table) && table != []
    ensures forall r :: r in table ==> r.date <= table[|table| - 1].date
  {
  }

  /** The rows in front of a date, and those behind it. */
  function Front(table: seq<Row>, d: int): seq<Row> {
    table[..Cut(table, d)]
  }

  function Back(table: seq<Row>, d: int): seq<Row> {
    table[Cut(table, d + 1)..]
  }

  /** The row of the date, when there is one. */
  function On(table: seq<Row>, d: int): seq<Row>
    requires Cut(table, d) <= Cut(table, d + 1)
  {
    table[Cut(table, d)..Cut(table, d + 1)]
  }

  lemma {:induction false} CutMonotone(table: seq<Row>, d: int)
    ensures Cut(table, d) <= Cut(table, d + 1)
  {
    if table != [] && table[|table| - 1].date >= d {
      CutMonotone(table[..|table| - 1], d);
    }
  }

  lemma FirstTwo(rows: seq<Row>)
    requires InRowOrder(rows) && |rows| >= 2
    ensures rows[0].date < rows[1].date
  {
  }

  lemma Split(table: seq<Row>, d: int)
    requires InRowOrder(table)
    ensures Cut(table, d) <= Cut(table, d + 1)
    ensures table == Front(table, d) + On(table, d) + Back(table, d)
    ensures Earlier(Front(table, d), d) && Later(Back(table, d), d)
    ensures |On(table, d)| <= 1 && (On(table, d) != [] ==> On(table, d)[0].date == d)
  {
    CutMonotone(table, d);
    CutFacts(table, d);
    CutFacts(table, d + 1);
    OnDate(table, d);
    hide Cut, Earlier, InRowOrder;
  }

  lemma OnDate(table: seq<Row>, d: int)
    requires InRowOrder(table) && Cut(table, d) <= Cut(table, d + 1)
    ensures |On(table, d)| <= 1 && forall r :: r in On(table, d) ==> r.date == d
  {
    CutFacts(table, d);
    CutFacts(table, d + 1);
    var k, l := Cut(table, d), Cut(table, d + 1);
    hide Cut;
    var on := table[k..l];
    PartOfBoth(table, k, l);
    if |on| >= 2 {
      FirstTwo(on);
    }
  }

  lemma PartOfBoth(table: seq<Row>, k: nat, l: nat)
    requires k <= l <= |table|
    ensures forall r :: r in table[k..l] ==> r in table[k..] && r in table[..l]
  {
    assert table[k..] == table[k..l] + table[l..] && table[..l] == table[..k] + table[k..l];
  }

  lemma SplitHasDate(table: seq<Row>, d: int)
    requires InRowOrder(table)
    ensures Cut(table, d) <= Cut(table, d + 1) && (HasDate(table, d) <==> On(table, d) != [])
  {
    Split(table, d);
    hide Front, On, Back, InRowOrder;
    assert On(table, d) != [] ==> On(table, d)[0] in table;
  }

  /** Recording a tick puts its row in the place of the date. */
  lemma RecordFullIs(table: seq<Row>, t: Tick)
    requires InRowOrder(table)
    ensures var d := t.Date();
            var x := Front(table, d);
            var prev := if x == [] then None else Some(x[|x| - 1].close);
            RecordFull(table, t) ==
            if prev.Some? && prev.value <= 0.0 then None else Some(x + [RowFor(t, prev)] + Back(table, d))
  {
    hide UtcDate, Round8, DailyReturn, PutRow, PreviousClose;
    var d := t.Date();
    Split(table, d);
    var x := Front(table, d);
    var prev := if x == [] then None else Some(x[|x| - 1].close);
    var any := RowFor(t, None);
    PutBetween(x, On(table, d), Back(table, d), any);
    hide Front, On, Back;
    if prev.None? || prev.value > 0.0 {
      PutBetween(x, On(table, d), Back(table, d), RowFor(t, prev));
    }
  }

  lemma OrderOfParts(x: seq<Row>, row: Row, y: seq<Row>)
    requires InRowOrder(x) && InRowOrder(y) && Earlier(x, row.date) && Later(y, row.date)
    ensures InRowOrder(x + [row] + y)
  {
    var all := x + [row] + y;
    forall i, j | 0 <= i < j < |all|
      ensures all[i].date < all[j].date
    {
      assert i < |x| ==> all[i] in x;
      assert j > |x| ==> all[j] in y;
      assert i > |x| ==> all[i] == y[i - |x| - 1] && all[j] == y[j - |x| - 1];
    }
  }

  lemma RecordFullKeepsOrder(table: seq<Row>, t: Tick)
    requires InRowOrder(table) && RecordFull(table, t).Some?
    ensures InRowOrder(RecordFull(table, t).value)
  {
    hide UtcDate, Round8, DailyReturn, RecordFull, InRowOrder, Earlier, Later, On;
    RecordFullIs(table, t);
    Split(table, t.Date());
    var x, y := Front(table, t.Date()), Back(table, t.Date());
    PartsInOrder(table, Cut(table, t.Date()), Cut(table, t.Date() + 1));
    OrderOfParts(x, RowFor(t, if x == [] then None else Some(x[|x| - 1].close)), y);
  }

  lemma PartsInOrder(table: seq<Row>, k: nat, l: nat)
    requires InRowOrder(table) && k <= |table| && l <= |table|
    ensures InRowOrder(table[..k]) && InRowOrder(table[l..])
  {
  }

  // ----- the full table of a history -----

  /** A tick on a new date, after the history whose closes are d. */
  lemma FullNewDate(d: seq<Tick>, t: Tick)
    requires Storable(d) && (d != [] ==> d[|d| - 1].Date() < t.Date())
    ensures RecordFull(FullTable(d), t) == if Storable(d + [t]) then Some(FullTable(d + [t])) else None
  {
    hide Round8, FullTable, PutRow, PreviousClose, DailyReturn, UtcDate, Storable;
    if d != [] {
      LastRow(d);
      LastCloseDecides(d, t);
    } else {
      SingleIsStorable(t);
    }
    RecordNewDate(FullTable(d), t);
    if Storable(d + [t]) {
      FullTableSnoc(d, t);
    }
  }

  /** A later tick on the last date replaces that date's close. */
  lemma FullSameDate(d: seq<Tick>, last: Tick, t: Tick)
    requires Storable(d + [last]) && last.Date() == t.Date() && (d != [] ==> d[|d| - 1].Date() < t.Date())
    ensures Storable(d + [t]) && RecordFull(FullTable(d + [last]), t) == Some(FullTable(d + [t]))
  {
    hide Round8, FullTable, PutRow, PreviousClose, DailyReturn, UtcDate, Storable, CloseBefore;
    SameStorable(d, last, t);
    FullTableSnoc(d, last);
    FullTableSnoc(d, t);
    SameCloseBefore(d, last, t);
    if d != [] {
      LastRow(d);
    }
    RecordSameDate(FullTable(d + [last]), t);
  }

  function FullOrNone(closes: seq<Tick>): Option<seq<Row>> {
    if Storable(closes) then Some(FullTable(closes)) else None
  }

  /** One more tick on the last date or behind it. */
  lemma RecordOnCloses(d: seq<Tick>, t: Tick)
    requires (forall i, j :: 0 <= i < j < |d| ==> d[i].Date() < d[j].Date()) && (d != [] ==> d[|d| - 1].Date() <= t.Date())
    ensures FullOrNone(CloseAdded(d, t)) == match FullOrNone(d) case None => None case Some(x) => RecordFull(x, t)
  {
    hide UtcDate, RecordFull, Storable, FullTable;
    if d != [] && d[|d| - 1].Date() == t.Date() {
      var e, last := d[..|d| - 1], d[|d| - 1];
      assert d == e + [last] && (e != [] ==> e[|e| - 1].Date() < t.Date());
      if Storable(d) {
        FullSameDate(e, last, t);
      } else if Storable(e + [t]) {
        SameStorable(e, t, last);
        assert false;
      }
    } else if Storable(d) {
      FullNewDate(d, t);
    } else {
      StillNotStorable(d, d + [t]);
    }
  }

  /** Recording a history from the start gives the full table of its closes. */
  lemma {:induction false} FullFromScratch(ticks: seq<Tick>)
    requires InDateOrder(ticks)
    ensures RecordAllFull([], ticks) == if Storable(DayCloses(ticks)) then Some(FullTable(DayCloses(ticks))) else None
  {
    hide UtcDate, RecordFull, Storable, FullTable;
    if ticks == [] {
      EmptyTable();
    } else {
      var p, t := ticks[..|ticks| - 1], ticks[|ticks| - 1];
      assert p != [] ==> p[|p| - 1].Date() <= t.Date();
      assert InDateOrder(p);
      hide InDateOrder;
      FullFromScratch(p);
      DayClosesAscend(p);
      assert p == [] ==> DayCloses(p) == [];
      assert DayCloses(ticks) == CloseAdded(DayCloses(p), t);
      hide DayCloses;
      RecordOnCloses(DayCloses(p), t);
    }
  }

  lemma EmptyTable()
    ensures Storable([]) && FullTable([]) == []
  {
  }

  // ----- recording a part of the history again -----

  predicate HasTick(ticks: seq<Tick>, d: int) {
    exists t :: t in ticks && t.Date() == d
  }

  lemma {:induction false} PutMembers(w: seq<Row>, row: Row)
    ensures forall r :: r in PutRow(w, row) ==> r in w || r == row
  {
    if w != [] {
      PutMembers(w[..|w| - 1], row);
    }
  }

  lemma {:induction false} CutConcat(x: seq<Row>, w: seq<Row>, d: int)
    requires Earlier(x, d)
    ensures Cut(x + w, d) == |x| + Cut(w, d)
  {
    if w == [] {
      assert x + w == x;
      assert x != [] ==> x[|x| - 1] in x;
    } else {
      var all := x + w;
      assert all[..|all| - 1] == x + w[..|w| - 1] && all[|all| - 1] == w[|w| - 1];
      hide Earlier;
      CutConcat(x, w[..|w| - 1], d);
    }
  }

  lemma NothingInFront(w: seq<Row>, d: int)
    requires forall r :: r in w ==> d <= r.date
    ensures Cut(w, d) == 0
  {
    if w != [] {
      assert w[|w| - 1] in w && forall r :: r in w[..|w| - 1] ==> r in w;
      NothingInFront(w[..|w| - 1], d);
    }
  }

  /** Recording keeps the rows in front of and behind the tick's date. */
  lemma FrontKept(table: seq<Row>, t: Tick, d: int)
    requires InRowOrder(table) && d <= t.Date() && RecordFull(table, t).Some?
    ensures Front(RecordFull(table, t).value, d) == Front(table, d)
  {
    hide UtcDate, Round8, DailyReturn, PreviousClose, InRowOrder, Cut, PutRow;
    var row := RowFor(t, PreviousClose(table, t.Date()));
    var k := Cut(table, d);
    var x, w := table[..k], table[k..];
    CutFacts(table, d);
    assert x + w == table;
    PutBehind(x, w, row);
    PutMembers(w, row);
    CutConcat(x, PutRow(w, row), d);
    NothingInFront(PutRow(w, row), d);
  }

  lemma HasDateConcat(x: seq<Row>, y: seq<Row>, d: int)
    ensures HasDate(x + y, d) <==> HasDate(x, d) || HasDate(y, d)
  {
    assert forall r :: r in x + y <==> r in x || r in y;
  }

  lemma HasDateSingle(rows: seq<Row>, d: int)
    requires |rows| <= 1
    ensures HasDate(rows, d) <==> rows != [] && rows[0].date == d
  {
    if rows != [] {
      assert rows[0] in rows;
    }
  }

  lemma RecordedDate(table: seq<Row>, t: Tick, d: int)
    requires InRowOrder(table) && RecordFull(table, t).Some?
    ensures HasDate(RecordFull(table, t).value, d) <==> HasDate(table, d) || d == t.Date()
  {
    hide UtcDate, Round8, DailyReturn, PreviousClose, InRowOrder, Cut, RecordFull, Front, Back, On, Earlier, Later, HasDate;
    RecordFullIs(table, t);
    Split(table, t.Date());
    var x, y, on := Front(table, t.Date()), Back(table, t.Date()), On(table, t.Date());
    var row := RowFor(t, if x == [] then None else Some(x[|x| - 1].close));
    HasDateConcat(x + on, y, d);
    HasDateConcat(x, on, d);
    HasDateConcat(x + [row], y, d);
    HasDateConcat(x, [row], d);
    HasDateSingle(on, d);
    HasDateSingle([row], d);
  }

  /** The dates of a table are those of its ticks. */
  lemma {:induction false} RecordedDates(full: seq<Row>, ticks: seq<Tick>)
    requires InRowOrder(full) && RecordAllFull(full, ticks).Some?
    ensures InRowOrder(RecordAllFull(full, ticks).value)
    ensures forall d :: HasDate(RecordAllFull(full, ticks).value, d) <==> HasDate(full, d) || HasTick(ticks, d)
  {
    hide UtcDate, RecordFull, InRowOrder, HasDate;
    if ticks != [] {
      var p, t := ticks[..|ticks| - 1], ticks[|ticks| - 1];
      assert ticks == p + [t];
      RecordedDates(full, p);
      var x := RecordAllFull(full, p).value;
      RecordFullKeepsOrder(x, t);
      forall d
        ensures HasDate(RecordFull(x, t).value, d) <==> HasDate(full, d) || HasTick(ticks, d)
      {
        RecordedDate(x, t, d);
        HasTickSnoc(p, t, d);
      }
    }
  }

  lemma HasTickSnoc(ticks: seq<Tick>, t: Tick, d: int)
    ensures HasTick(ticks + [t], d) <==> HasTick(ticks, d) || t.Date() == d
  {
    hide UtcDate;
    assert t in ticks + [t];
    assert forall x :: x in ticks ==> x in ticks + [t];
  }

  lemma {:induction false} FrontOfHistory(full: seq<Row>, ticks: seq<Tick>, d: int)
    requires InRowOrder(full) && RecordAllFull(full, ticks).Some? && forall t :: t in ticks ==> d <= t.Date()
    ensures Front(RecordAllFull(full, ticks).value, d) == Front(full, d)
  {
    hide UtcDate, RecordFull, InRowOrder, Front;
    if ticks != [] {
      var p, t := ticks[..|ticks| - 1], ticks[|ticks| - 1];
      assert ticks == p + [t];
      FrontOfHistory(full, p, d);
      RecordedDates(full, p);
      FrontKept(RecordAllFull(full, p).value, t, d);
    }
  }

  /** On two tables with the same rows in front of a tick's date, of which one has none behind it. */
  lemma CommonFront(table: seq<Row>, x: seq<Row>, t: Tick)
    requires InRowOrder(table) && InRowOrder(x)
    requires Front(table, t.Date()) == Front(x, t.Date()) && Back(x, t.Date()) == []
    ensures RecordFull(table, t) ==
            match RecordFull(x, t) case None => None case Some(y) => Some(y + Back(table, t.Date()))
  {
    hide UtcDate, Round8, DailyReturn, InRowOrder, Front, Back, RecordFull;
    RecordFullIs(table, t);
    RecordFullIs(x, t);
    assert forall y: seq<Row> :: y + [] == y;
  }

  lemma {:induction false} RecordAllFullConcat(full: seq<Row>, a: seq<Tick>, b: seq<Tick>)
    ensures RecordAllFull(full, a + b) == match RecordAllFull(full, a) case None => None case Some(x) => RecordAllFull(x, b)
  {
    hide RecordFull;
    if b == [] {
      assert a + b == a;
    } else {
      RecordAllFullConcat(full, a, b[..|b| - 1]);
      assert (a + b)[..|a + b| - 1] == a + b[..|b| - 1];
    }
  }

  lemma NothingBehind(table: seq<Row>, d: int)
    requires InRowOrder(table) && forall e :: HasDate(table, e) ==> e <= d
    ensures Back(table, d) == []
  {
    if table != [] {
      var last := table[|table| - 1];
      assert last in table && HasDate(table, last.date);
    }
  }

  /** Rows that are all later than a date do not change what is in front of a later one, unless they are. */
  lemma FrontBehindConcat(x: seq<Row>, full: seq<Row>, d: int, e: int)
    requires InRowOrder(x) && InRowOrder(full) && d <= e
    requires (forall c :: HasDate(x, c) ==> c <= d) && forall c :: HasDate(full, c) && d < c ==> e <= c
    ensures Front(x + Back(full, d), e) == Front(x, e)
    ensures Back(x + Back(full, d), e) == Back(full, e)
  {
    hide InRowOrder, Cut;
    var a, y := full[..Cut(full, d + 1)], Back(full, d);
    var k := Cut(x, e);
    var f, z := x[..k], x[k..];
    CutFacts(full, d + 1);
    CutFacts(x, e);
    assert x + y == f + (z + y) && x == f + z && full == a + y;
    assert forall r :: r in y ==> r in full && HasDate(full, r.date);
    assert forall r :: r in x ==> HasDate(x, r.date);
    hide HasDate;
    CutConcat(f, z + y, e);
    NothingInFront(z + y, e);
    CutConcat(x, y, e + 1);
    CutConcat(a, y, e + 1);
  }

  /** A batch b that was recorded behind p, and then a page q, in order, that has all its dates: the full table is that
      of p and q alone. */
  lemma {:induction false} AgainUpTo(p: seq<Tick>, b: seq<Tick>, q: seq<Tick>, full: seq<Row>, i: nat)
    requires InDateOrder(p + b) && InDateOrder(p + q) && (forall t :: t in b ==> HasTick(q, t.Date()))
    requires RecordAllFull([], p + b) == Some(full) && RecordAllFull([], p + q).Some? && 0 < i <= |q|
    ensures RecordAllFull([], p + q[..i]).Some?
    ensures RecordAllFull(full, q[..i]) == Some(RecordAllFull([], p + q[..i]).value + Back(full, q[i - 1].Date()))
  {
    hide UtcDate, RecordFull, InDateOrder, HasTick, HasDate, Back, Front, RecordAllFull, InRowOrder;
    var t, u := q[i - 1], q[..i - 1];
    assert q[..i] == u + [t] && q == q[..i] + q[i..] && p + q == (p + q[..i]) + q[i..] && p + q[..i] == p + u + [t];
    RecordAllFullConcat([], p + q[..i], q[i..]);
    RecordAllFullSnoc([], p + u, t);
    RecordAllFullSnoc(full, u, t);
    EmptyInOrder();
    RecordedDates([], p + u);
    RecordedDates([], p + b);
    var x := RecordAllFull([], p + u).value;
    UpToTick(p, q, i - 1);
    NoneLater(p + u, t.Date());
    NothingBehind(x, t.Date());
    if i == 1 {
      assert u == [] && p + u == p;
      RecordAllFullConcat([], p, b);
      forall y | y in b
        ensures t.Date() <= y.Date()
      {
        PageHasDate(p, q, 0, y.Date());
      }
      FrontOfHistory(x, b, t.Date());
      assert RecordAllFull(full, []) == Some(full) by {
        NothingRecorded(full);
      }
      CommonFront(full, x, t);
    } else {
      var d := q[i - 2].Date();
      AgainUpTo(p, b, q, full, i - 1);
      NoneLater(p + u, d);
      forall c | HasDate(full, c) && d < c
        ensures t.Date() <= c
      {
        NoDateBetween(p, b, q, i - 1, c);
      }
      FrontBehindConcat(x, full, d, t.Date());
      AppendedInOrder(x, full, d);
      CommonFront(x + Back(full, d), x, t);
    }
  }

  lemma EmptyInOrder()
    ensures InRowOrder([]) && forall d :: !HasDate([], d)
  {
  }

  lemma NothingRecorded(full: seq<Row>)
    ensures RecordAllFull(full, []) == Some(full)
  {
  }

  lemma AppendedInOrder(x: seq<Row>, full: seq<Row>, d: int)
    requires InRowOrder(x) && InRowOrder(full) && forall c :: HasDate(x, c) ==> c <= d
    ensures InRowOrder(x + Back(full, d))
  {
    CutFacts(full, d + 1);
    var y := Back(full, d);
    assert forall i :: 0 <= i < |x| ==> x[i] in x && HasDate(x, x[i].date);
    assert forall i :: 0 <= i < |y| ==> y[i] in y && d < y[i].date;
  }

  /** What was recorded before the page's i-th tick is no later than it. */
  lemma UpToTick(p: seq<Tick>, q: seq<Tick>, i: nat)
    requires InDateOrder(p + q) && i < |q|
    ensures forall t :: t in p + q[..i] ==> t.Date() <= q[i].Date()
    ensures i > 0 ==> forall t :: t in p + q[..i] ==> t.Date() <= q[i - 1].Date()
    ensures i > 0 ==> q[i - 1].Date() <= q[i].Date()
  {
    hide UtcDate;
    var all, u := p + q, p + q[..i];
    assert all[|p| + i] == q[i] && (i > 0 ==> all[|p| + i - 1] == q[i - 1]);
    assert forall j :: 0 <= j < |u| ==> u[j] == all[j];
  }

  lemma NoneLater(ticks: seq<Tick>, d: int)
    requires forall t :: t in ticks ==> t.Date() <= d
    ensures forall c :: HasTick(ticks, c) ==> c <= d
  {
    hide UtcDate;
  }

  /** A date of the batch is a date of the page: it is the next tick's or a later one, unless the page has had it. */
  lemma PageHasDate(p: seq<Tick>, q: seq<Tick>, i: nat, c: int)
    requires InDateOrder(p + q) && i < |q| && HasTick(q, c)
    ensures q[i].Date() <= c || (i > 0 && c <= q[i - 1].Date())
  {
    hide UtcDate;
    var all := p + q;
    var x :| x in q && x.Date() == c;
    var j :| 0 <= j < |q| && q[j] == x;
    assert all[|p| + j] == x && all[|p| + i] == q[i] && (i > 0 ==> all[|p| + i - 1] == q[i - 1]);
  }

  lemma NoDateBetween(p: seq<Tick>, b: seq<Tick>, q: seq<Tick>, i: nat, c: int)
    requires InDateOrder(p + q) && (forall t :: t in b ==> HasTick(q, t.Date())) && 0 < i < |q|
    requires HasTick(p + b, c) && q[i - 1].Date() < c
    ensures q[i].Date() <= c
  {
    hide UtcDate, InDateOrder;
    UpToTick(p, q, i);
    assert forall x :: x in p ==> x in p + q[..i];
    var t :| t in p + b && t.Date() == c;
    PageHasDate(p, q, i, c);
  }

  /** The same for the whole page. */
  lemma RecordedTwice(p: seq<Tick>, b: seq<Tick>, q: seq<Tick>, full: seq<Row>)
    requires InDateOrder(p + b) && InDateOrder(p + q) && (forall t :: t in b ==> HasTick(q, t.Date()))
    requires RecordAllFull([], p + b) == Some(full) && RecordAllFull([], p + q).Some?
    ensures RecordAllFull(full, q) == RecordAllFull([], p + q)
  {
    hide UtcDate, RecordFull, InDateOrder, HasDate, Back, RecordAllFull, InRowOrder;
    if q == [] {
      NoTick(b, q);
      NothingRecorded(full);
      assert p + b == p && p + q == p;
    } else {
      var n := |q|;
      assert q[..n] == q && q[..n - 1] + [q[n - 1]] == q;
      AgainUpTo(p, b, q, full, n);
      EmptyInOrder();
      RecordedDates([], p + b);
      forall t | t in p + b
        ensures t.Date() <= q[n - 1].Date()
      {
        UpToTick(p, q, n - 1);
        if t in b {
          PageHasDate(p, q, n - 1, t.Date());
          LastTick(p, q, t.Date());
        } else {
          assert t in p + q[..n - 1];
        }
      }
      NoneLater(p + b, q[n - 1].Date());
      NothingBehind(full, q[n - 1].Date());
      assert forall x: seq<Row> :: x + [] == x;
    }
  }

  lemma LastTick(p: seq<Tick>, q: seq<Tick>, c: int)
    requires InDateOrder(p + q) && HasTick(q, c)
    ensures c <= q[|q| - 1].Date()
  {
    hide UtcDate;
    var all := p + q;
    var x :| x in q && x.Date() == c;
    var j :| 0 <= j < |q| && q[j] == x;
    assert all[|p| + j] == x && all[|all| - 1] == q[|q| - 1];
  }

  lemma NoTick(b: seq<Tick>, q: seq<Tick>)
    requires q == [] && forall t :: t in b ==> HasTick(q, t.Date())
    ensures b == []
  {
    hide UtcDate;
    SomeMember(b);
  }

  lemma SomeMember<T>(s: seq<T>)
    ensures s != [] ==> exists x :: x in s
  {
    if s != [] {
      assert s[0] in s;
    }
  }
}
