/** The window of daily returns, said of the ticks alone. */
module Windows {
  import opened Decimals
  import opened Positions
  import opened Options
  import opened Returns

  /** No date of the history lies between the dates of the two ticks. */
  predicate NextDates(ticks: seq<Tick>, j: nat, i: nat)
    requires j < |ticks| && i < |ticks|
  {
    ticks[j].Date() < ticks[i].Date() &&
    forall k :: 0 <= k < |ticks| ==> ticks[k].Date() <= ticks[j].Date() || ticks[i].Date() <= ticks[k].Date()
  }

  predicate FirstDate(ticks: seq<Tick>, i: nat)
    requires i < |ticks|
  {
    forall j :: 0 <= j < |ticks| ==> ticks[i].Date() <= ticks[j].Date()
  }

  /** The stored price and the return give the new price, up to rounding. */
  predicate Explains(before: real, r: real, price: real) {
    before > 0.0 && Abs(before * (1.0 + r) - price) <= before * 0.0000000000500001
  }

  /** A row holds the last price of its date; its return is that of the step from the stored last price of the date
      before, up to rounding; and it has none exactly when its date is the first of the history. */
  ghost predicate RowExplained(ticks: seq<Tick>, row: Row, i: nat) {
    i < |ticks| && LastOfDate(ticks, i) &&
    row.date == ticks[i].Date() && row.close == Round8(ticks[i].price) && row.asOf == ticks[i].asOf &&
    (row.ret.None? <==> FirstDate(ticks, i)) &&
    forall j: nat :: j < |ticks| && LastOfDate(ticks, j) && NextDates(ticks, j, i) ==>
      row.ret.Some? && Explains(Round8(ticks[j].price), row.ret.value, ticks[i].price)
  }

  ghost predicate Explained(ticks: seq<Tick>, row: Row) {
    exists i: nat :: RowExplained(ticks, row, i)
  }

  predicate InCloseOrder(closes: seq<Tick>) {
    forall i, j :: 0 <= i < j < |closes| ==> closes[i].Date() < closes[j].Date()
  }

  lemma CloseIndex(closes: seq<Tick>, a: nat, b: nat)
    requires InCloseOrder(closes) && a < |closes| && b < |closes|
    ensures closes[a].Date() < closes[b].Date() <==> a < b
  {
    hide UtcDate;
  }

  lemma ReturnExplains(before: real, price: real)
    requires before > 0.0
    ensures Explains(before, DailyReturn(before, price), price)
  {
    hide DailyReturn, Abs, Worth, HalfUlps16, Explains;
    ReturnExplainsClose(before, price);
    UnitsBelow();
    ByWorth(before, DailyReturn(before, price), price, 0.00000000005 + HalfUlps16(1.0));
  }

  lemma UnitsBelow()
    ensures 0.00000000005 + HalfUlps16(1.0) <= 0.0000000000500001
  {
  }

  lemma ByWorth(before: real, r: real, price: real, e: real)
    requires before > 0.0 && e <= 0.0000000000500001 && Abs(Worth(before, 1.0 + r) - price) <= Worth(before, e)
    ensures Explains(before, r, price)
  {
    hide Abs;
    MulBelow(before, e, 0.0000000000500001);
  }

  lemma MulBelow(x: real, a: real, b: real)
    requires x > 0.0 && a <= b
    ensures x * a <= x * b
  {
  }

  /** The close in front of a date's close is the last tick of the date before. */
  lemma CloseInFront(ticks: seq<Tick>, k: nat, i: nat, j: nat)
    requires InDateOrder(ticks) && k < |DayCloses(ticks)| && i < |ticks| && DayCloses(ticks)[k] == ticks[i]
    requires j < |ticks| && LastOfDate(ticks, j) && NextDates(ticks, j, i)
    ensures k > 0 && DayCloses(ticks)[k - 1] == ticks[j]
  {
    hide DayCloses, UtcDate, InDateOrder;
    var closes := DayCloses(ticks);
    DayClosesAscend(ticks);
    var n := DayCloseOf(ticks, ticks[j]);
    CloseIndex(closes, n, k);
    var x := DayCloseIsLast(ticks, k - 1);
    CloseIndex(closes, n, k - 1);
    CloseIndex(closes, k - 1, k);
    assert ticks[x].Date() <= ticks[j].Date();
    assert ticks[x].Date() == ticks[j].Date() by {
      CloseIndex(closes, k - 1, n);
    }
    SameLast(ticks, x, j);
  }

  lemma SameLast(ticks: seq<Tick>, x: nat, j: nat)
    requires x < |ticks| && j < |ticks| && LastOfDate(ticks, x) && LastOfDate(ticks, j) && ticks[x].Date() == ticks[j].Date()
    ensures x == j
  {
    hide UtcDate;
  }

  lemma FirstClose(ticks: seq<Tick>, k: nat, i: nat)
    requires InDateOrder(ticks) && i < |ticks| && k < |DayCloses(ticks)| && DayCloses(ticks)[k] == ticks[i]
    ensures FirstDate(ticks, i) <==> k == 0
  {
    hide DayCloses, UtcDate, InDateOrder;
    var closes := DayCloses(ticks);
    DayClosesAscend(ticks);
    forall j | 0 <= j < |ticks|
      ensures k == 0 ==> ticks[i].Date() <= ticks[j].Date()
    {
      var n := DayCloseOf(ticks, ticks[j]);
      CloseIndex(closes, n, k);
    }
    if k > 0 {
      var x := DayCloseIsLast(ticks, 0);
      CloseIndex(closes, 0, k);
    }
  }

  lemma CloseRowExplained(ticks: seq<Tick>, k: nat) returns (i: nat)
    requires InDateOrder(ticks) && Storable(DayCloses(ticks)) && k < |DayCloses(ticks)|
    ensures RowExplained(ticks, FullTable(DayCloses(ticks))[k], i)
  {
    hide FullTable, Round8, UtcDate, DailyReturn, DayCloses, InDateOrder, Storable, Explains, FirstDate, NextDates, LastOfDate;
    var closes := DayCloses(ticks);
    i := DayCloseIsLast(ticks, k);
    FullTableAt(closes, k);
    var row := FullTable(closes)[k];
    FirstClose(ticks, k, i);
    forall j: nat | j < |ticks| && LastOfDate(ticks, j) && NextDates(ticks, j, i)
      ensures row.ret.Some? && Explains(Round8(ticks[j].price), row.ret.value, ticks[i].price)
    {
      CloseInFront(ticks, k, i, j);
      ReturnExplains(CloseBefore(closes, k).value, ticks[i].price);
    }
  }

  lemma FullDates(closes: seq<Tick>, k: nat)
    requires Storable(closes) && k < |closes|
    ensures var row := FullTable(closes)[k];
            row.date == closes[k].Date() && (row.ret.None? <==> k == 0)
  {
    FullTableAt(closes, k);
    hide FullTable, Round8, UtcDate, DailyReturn, Storable;
  }

  /** No date of the history lies between neighbouring closes. */
  lemma NoDateBetween(ticks: seq<Tick>, k: nat, t: Tick)
    requires InDateOrder(ticks) && 0 < k < |DayCloses(ticks)| && t in ticks
    ensures var closes := DayCloses(ticks);
            closes[k - 1].Date() < closes[k].Date() && (t.Date() <= closes[k - 1].Date() || closes[k].Date() <= t.Date())
  {
    hide DayCloses, UtcDate, InDateOrder;
    var closes := DayCloses(ticks);
    DayClosesAscend(ticks);
    var n := DayCloseOf(ticks, t);
    CloseIndex(closes, k - 1, k);
    CloseIndex(closes, k - 1, n);
    CloseIndex(closes, n, k);
  }

  lemma WindowRow(ticks: seq<Tick>, w: seq<Row>, k: nat) returns (i: nat)
    requires InDateOrder(ticks) && Storable(DayCloses(ticks)) && k < |w|
    requires w == Latest(FullTable(DayCloses(ticks)), WINDOW)
    ensures var m := |DayCloses(ticks)| - |w|;
            RowExplained(ticks, w[k], i) && w[k].date == DayCloses(ticks)[m + k].Date() && (w[k].ret.None? <==> m + k == 0)
  {
    hide UtcDate, FullTable, Storable, InDateOrder, DayCloses, RowExplained;
    var m := |DayCloses(ticks)| - |w|;
    assert w[k] == FullTable(DayCloses(ticks))[m + k];
    i := CloseRowExplained(ticks, m + k);
    FullDates(DayCloses(ticks), m + k);
  }

  lemma WindowNext(ticks: seq<Tick>, w: seq<Row>, k: nat, t: Tick)
    requires InDateOrder(ticks) && Storable(DayCloses(ticks)) && 0 < k < |w| && t in ticks
    requires w == Latest(FullTable(DayCloses(ticks)), WINDOW)
    ensures w[k - 1].date < w[k].date && (t.Date() <= w[k - 1].date || w[k].date <= t.Date())
  {
    hide UtcDate, FullTable, Storable, InDateOrder, DayCloses, RowExplained;
    var i := WindowRow(ticks, w, k - 1);
    var j := WindowRow(ticks, w, k);
    NoDateBetween(ticks, |DayCloses(ticks)| - |w| + k, t);
  }

  lemma WindowSize(closes: seq<Tick>)
    requires Storable(closes)
    ensures var w := Latest(FullTable(closes), WINDOW);
            |w| <= 60 && |w| <= |closes| && (|w| < 60 ==> |w| == |closes|) && (closes != [] ==> w != [])
  {
    hide FullTable;
  }

  /** The window holds the latest dates, up to 60, and all of them when there are no more; in order, without a gap and up
      to the last tick; and each row is explained by its date's last tick and the date before. */
  lemma WindowExplained(ticks: seq<Tick>, w: seq<Row>)
    requires InDateOrder(ticks) && RecordAll(ticks) == Some(w)
    ensures forall k :: 0 <= k < |w| ==> Explained(ticks, w[k])
    ensures |w| <= 60 && (0 < |w| < 60 ==> w[0].ret.None?) && forall k :: 0 < k < |w| ==> w[k].ret.Some?
    ensures if ticks == [] then w == [] else w != [] && w[|w| - 1].date == ticks[|ticks| - 1].Date()
    ensures forall k, t :: 0 < k < |w| && t in ticks ==>
              w[k - 1].date < w[k].date && (t.Date() <= w[k - 1].date || w[k].date <= t.Date())
  {
    hide RecordAll, UtcDate, FullTable, Storable, InDateOrder, DayCloses, RowExplained, Latest;
    WindowIsFromScratch(ticks);
    DayClosesAscend(ticks);
    NothingCloses();
    var closes := DayCloses(ticks);
    WindowSize(closes);
    forall k | 0 <= k < |w|
      ensures Explained(ticks, w[k])
      ensures w[k].date == closes[|closes| - |w| + k].Date() && (w[k].ret.None? <==> |closes| - |w| + k == 0)
    {
      var i := WindowRow(ticks, w, k);
    }
    hide Explained;
    forall k, t | 0 < k < |w| && t in ticks
      ensures w[k - 1].date < w[k].date && (t.Date() <= w[k - 1].date || w[k].date <= t.Date())
    {
      WindowNext(ticks, w, k, t);
    }
  }

  lemma NothingCloses()
    ensures DayCloses([]) == []
  {
  }

  /** Two neighbouring rows: the return of the later one leads from the stored close of the earlier one to the last price
      of its date. */
  lemma NeighboursExplained(ticks: seq<Tick>, w: seq<Row>, k: nat) returns (i: nat)
    requires InDateOrder(ticks) && RecordAll(ticks) == Some(w) && 0 < k < |w|
    ensures i < |ticks| && LastOfDate(ticks, i) && ticks[i].Date() == w[k].date
    ensures w[k].ret.Some? && Explains(w[k - 1].close, w[k].ret.value, ticks[i].price)
  {
    hide RecordAll, UtcDate, Round8, InDateOrder, Explains, FirstDate;
    WindowExplained(ticks, w);
    assert Explained(ticks, w[k]) && Explained(ticks, w[k - 1]);
    i :| RowExplained(ticks, w[k], i);
    var j: nat :| RowExplained(ticks, w[k - 1], j);
    assert NextDates(ticks, j, i) by {
      assert forall n :: 0 <= n < |ticks| ==> ticks[n] in ticks;
      assert ticks[j] in ticks;
    }
    hide LastOfDate, NextDates;
  }
}
