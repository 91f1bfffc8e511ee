/** The portfolio view: marking positions to market, totals and lineage. */
module View {
  import opened Events
  import opened Options
  import opened Lexicographic
  import opened SortedStrings

  /** A row of positions_projection. */
  datatype Position = Position(symbol: string, qty: real, avg: real, realized: real)

  /** The last mark of a symbol, the event that set it and when that was ingested; an event id of zero is the nil id
      and a processing time of zero is the zero time. */
  datatype PriceMark = PriceMark(price: real, asOf: Cursor, processed: int)

  datatype Marked = Marked(row: Position, lastPrice: real, hasPrice: bool, value: real, unrealized: real)

  datatype Totals = Totals(value: real, unrealized: real, realized: real)

  const NO_TOTALS := Totals(0.0, 0.0, 0.0)

  type Marks = map<string, PriceMark>

  function MarkToMarket(row: Position, lastPrice: real, hasPrice: bool): Marked {
    if !hasPrice || row.qty == 0.0 then Marked(row, lastPrice, hasPrice, 0.0, 0.0)
    else Marked(row, lastPrice, hasPrice, lastPrice * row.qty, (lastPrice - row.avg) * row.qty)
  }

  /** A zero mark counts as none. */
  predicate Priced(prices: Marks, symbol: string) {
    symbol in prices && prices[symbol].price != 0.0
  }

  function PriceOf(prices: Marks, symbol: string): real {
    if symbol in prices then prices[symbol].price else 0.0
  }

  function MarkRow(row: Position, prices: Marks): Marked {
    MarkToMarket(row, PriceOf(prices, row.symbol), Priced(prices, row.symbol))
  }

  /** The market value of an open, priced position is what it cost plus its unrealized profit; any other
      position has neither. */
  lemma ValueIsCostPlusProfit(row: Position, prices: Marks)
    ensures var m := MarkRow(row, prices);
            if Open(row) && Priced(prices, row.symbol)
            then m.value == row.avg * row.qty + m.unrealized && m.lastPrice == PriceOf(prices, row.symbol)
            else m.value == 0.0 && m.unrealized == 0.0
  {
    var p := PriceOf(prices, row.symbol);
    assert (p - row.avg) * row.qty == p * row.qty - row.avg * row.qty;
    hide Priced, PriceOf;
  }

  /** What one row adds to the totals: market value and unrealized profit only when it is open and priced. */
  function Add(t: Totals, m: Marked): Totals {
    var open := m.hasPrice && m.row.qty != 0.0;
    Totals(if open then t.value + m.value else t.value,
           if open then t.unrealized + m.unrealized else t.unrealized,
           t.realized + m.row.realized)
  }

  function Sum(rows: seq<Marked>): Totals {
    if rows == [] then NO_TOTALS else Add(Sum(rows[..|rows| - 1]), rows[|rows| - 1])
  }

  method SumTotals(rows: seq<Marked>) returns (t: Totals)
    ensures t == Sum(rows)
  {
    t := NO_TOTALS;
    var i := 0;
    while i < |rows|
      invariant 0 <= i <= |rows| && t == Sum(rows[..i])
    {
      assert rows[..i + 1][..i] == rows[..i];
      t := Add(t, rows[i]);
      i := i + 1;
    }
    assert rows[..i] == rows;
  }

  // ----- totals in any order -----

  lemma AddCommutes(t: Totals, x: Marked, y: Marked)
    ensures Add(Add(t, x), y) == Add(Add(t, y), x)
  {
  }

  /** Taking a row out of the middle and adding it last. */
  lemma {:induction false} SumMovesLast(rows: seq<Marked>, k: nat)
    requires k < |rows|
    ensures Sum(rows) == Add(Sum(rows[..k] + rows[k + 1..]), rows[k])
  {
    hide Add;
    var n := |rows| - 1;
    if k == n {
      assert rows[..k] + rows[k + 1..] == rows[..n];
    } else {
      SumMovesLast(rows[..n], k);
      var a, b := rows[..n][..k] + rows[..n][k + 1..], rows[..k] + rows[k + 1..];
      assert b[..|b| - 1] == a && b[|b| - 1] == rows[n];
      AddCommutes(Sum(a), rows[k], rows[n]);
    }
  }

  /** The totals do not depend on the order of the rows. */
  lemma {:induction false} SumInAnyOrder(a: seq<Marked>, b: seq<Marked>)
    requires multiset(a) == multiset(b)
    ensures Sum(a) == Sum(b)
  {
    if a == [] {
      assert |multiset(b)| == 0;
      assert b == [];
    } else {
      hide Add;
      var n := |a| - 1;
      WithoutOne(a, n);
      assert a[..n] + a[n + 1..] == a[..n];
      assert a[n] in multiset(b);
      var k :| 0 <= k < |b| && b[k] == a[n];
      WithoutOne(b, k);
      SumMovesLast(b, k);
      SumInAnyOrder(a[..n], b[..k] + b[k + 1..]);
    }
  }

  lemma WithoutOne<T>(s: seq<T>, k: nat)
    requires k < |s|
    ensures multiset(s[..k] + s[k + 1..]) == multiset(s) - multiset{s[k]}
  {
    assert s == s[..k] + [s[k]] + s[k + 1..];
  }

  // ----- the view -----

  /** The event a partition was read as of, and when that was ingested if known. */
  datatype ReadAsOf = ReadAsOf(cursor: Cursor, processed: Option<int>)

  datatype MarkAsOf = MarkAsOf(symbol: string, ref: ReadAsOf)

  /** The fused lineage at the top of a view. */
  datatype AsOf = AsOf(id: nat, time: Option<int>, processed: Option<int>)

  datatype View = View(
    rows: seq<Marked>, unpriced: seq<string>, totals: Totals, driving: seq<nat>,
    positionsAsOf: Option<ReadAsOf>, pricesAsOf: seq<MarkAsOf>, asOf: Option<AsOf>)

  datatype Assembled = Assembled(view: View) | PortfolioIdRequired | DuplicateSymbol

  /** The cursor of the trade partition and the processing time of its event. */
  datatype ApplyMeta = ApplyMeta(cursor: Cursor, processed: int)

  predicate Duplicated(positions: seq<Position>) {
    exists i, j :: 0 <= i < j < |positions| && positions[i].symbol == positions[j].symbol
  }

  function Symbols(rows: seq<Marked>): seq<string> {
    seq(|rows|, i requires 0 <= i < |rows| => rows[i].row.symbol)
  }

  function MarkSymbols(marks: seq<MarkAsOf>): seq<string> {
    seq(|marks|, i requires 0 <= i < |marks| => marks[i].symbol)
  }

  predicate Open(row: Position) {
    row.qty != 0.0
  }

  /** The zero time is not shown. */
  function Shown(time: int): Option<int> {
    if time == 0 then None else Some(time)
  }

  /** The symbol has a mark that an event set. */
  predicate HasLineage(prices: Marks, symbol: string) {
    symbol in prices && prices[symbol].asOf.id != 0
  }

  function MarkLineage(prices: Marks, symbol: string): MarkAsOf
    requires symbol in prices
  {
    MarkAsOf(symbol, ReadAsOf(prices[symbol].asOf, Shown(prices[symbol].processed)))
  }

  function TradeLineage(trade: Option<ApplyMeta>): Option<ReadAsOf> {
    if trade.Some? && trade.value.cursor.id != 0 then Some(ReadAsOf(trade.value.cursor, Shown(trade.value.processed))) else None
  }

  /** The latest of the marks that an event set. */
  ghost predicate IsLatest(m: Cursor, prices: Marks) {
    (exists s :: HasLineage(prices, s) && prices[s].asOf == m) &&
    forall s :: HasLineage(prices, s) ==> !m.Before(prices[s].asOf)
  }

  /** The latest processing time of all marks, also of those that no event set. */
  ghost predicate IsLatestProcessing(latest: Option<int>, prices: Marks) {
    match latest
    case None => forall s :: s in prices ==> prices[s].processed == 0
    case Some(t) =>
      (exists s :: s in prices && prices[s].processed == t != 0) &&
      forall s :: s in prices && prices[s].processed != 0 ==> prices[s].processed <= t
  }

  predicate Increasing(ids: seq<nat>) {
    forall i, j :: 0 <= i < j < |ids| ==> ids[i] < ids[j]
  }

  /** The events behind a view. */
  ghost predicate Drives(id: nat, positionsAsOf: Option<ReadAsOf>, prices: Marks) {
    (positionsAsOf.Some? && positionsAsOf.value.cursor.id == id) || exists s :: HasLineage(prices, s) && prices[s].asOf.id == id
  }

  /** The lineage of one read alone: of the trade partition if it has any, else the latest of the price marks. Two reads
      are never fused. */
  ghost predicate Fused(asOf: Option<AsOf>, trade: Option<ReadAsOf>, prices: Marks) {
    var priced := exists s :: HasLineage(prices, s);
    if trade.Some? == priced then asOf == None
    else if trade.Some? then asOf == Some(AsOf(trade.value.cursor.id, Some(trade.value.cursor.time), trade.value.processed))
    else asOf.Some? && IsLatestProcessing(asOf.value.processed, prices) &&
         exists m: Cursor :: IsLatest(m, prices) && m.id == asOf.value.id && asOf.value.time == Shown(m.time)
  }

  /** The rows in symbol order, each marked; the open rows without a mark; totals over the rows; the lineage of
      both reads, the marks in symbol order and the events in id order. */
  ghost predicate IsView(v: View, positions: seq<Position>, prices: Marks, trade: Option<ApplyMeta>) {
    Ascending(Symbols(v.rows)) &&
    (forall m :: m in v.rows <==> exists p :: p in positions && m == MarkRow(p, prices)) &&
    Ascending(v.unpriced) &&
    (forall s :: s in v.unpriced <==> exists p :: p in positions && p.symbol == s && Open(p) && !Priced(prices, s)) &&
    v.totals == Sum(v.rows) && v.positionsAsOf == TradeLineage(trade) &&
    ListsMarks(v.pricesAsOf, prices) &&
    Increasing(v.driving) && (forall id :: id in v.driving <==> Drives(id, v.positionsAsOf, prices)) &&
    Fused(v.asOf, v.positionsAsOf, prices)
  }

  ghost predicate ListsMarks(marks: seq<MarkAsOf>, prices: Marks) {
    Ascending(MarkSymbols(marks)) &&
    forall x :: x in marks <==> HasLineage(prices, x.symbol) && x == MarkLineage(prices, x.symbol)
  }

  lemma FusedIsUnique(a: Option<AsOf>, b: Option<AsOf>, trade: Option<ReadAsOf>, prices: Marks)
    requires Fused(a, trade, prices) && Fused(b, trade, prices)
    ensures a == b
  {
    if trade.None? && a.Some? {
      var m: Cursor :| IsLatest(m, prices) && m.id == a.value.id && a.value.time == Shown(m.time);
      var n: Cursor :| IsLatest(n, prices) && n.id == b.value.id && b.value.time == Shown(n.time);
      LatestIsUnique(m, n, prices);
      LatestProcessingIsUnique(a.value.processed, b.value.processed, prices);
      hide IsLatest, IsLatestProcessing;
    }
  }

  lemma LatestIsUnique(m: Cursor, n: Cursor, prices: Marks)
    requires IsLatest(m, prices) && IsLatest(n, prices)
    ensures m == n
  {
    var s :| HasLineage(prices, s) && prices[s].asOf == m;
    var t :| HasLineage(prices, t) && prices[t].asOf == n;
    assert !m.Before(prices[t].asOf) && !n.Before(prices[s].asOf);
  }

  lemma LatestProcessingIsUnique(a: Option<int>, b: Option<int>, prices: Marks)
    requires IsLatestProcessing(a, prices) && IsLatestProcessing(b, prices)
    ensures a == b
  {
  }

  lemma {:induction false} IncreasingUnique(a: seq<nat>, b: seq<nat>)
    requires Increasing(a) && Increasing(b) && forall x :: x in a <==> x in b
    ensures a == b
  {
    assert |a| > 0 ==> a[0] in b;
    assert |b| > 0 ==> b[0] in a;
    if a != [] {
      IncreasingTail(a);
      IncreasingTail(b);
      hide Increasing;
      IncreasingUnique(a[1..], b[1..]);
    }
  }

  lemma IncreasingTail(a: seq<nat>)
    requires Increasing(a) && a != []
    ensures Increasing(a[1..]) && (forall x :: x in a[1..] <==> x in a && x != a[0]) && forall x :: x in a ==> a[0] <= x
    ensures a == [a[0]] + a[1..]
  {
  }

  lemma MarksAreUnique(a: seq<MarkAsOf>, b: seq<MarkAsOf>, prices: Marks)
    requires ListsMarks(a, prices) && ListsMarks(b, prices)
    ensures a == b
  {
    MarkSymbolsMembers(a, prices);
    MarkSymbolsMembers(b, prices);
    AscendingUnique(MarkSymbols(a), MarkSymbols(b));
    hide Ascending;
    assert |a| == |MarkSymbols(a)| == |MarkSymbols(b)| == |b|;
    forall i | 0 <= i < |a|
      ensures a[i] == b[i]
    {
      assert a[i] in a && b[i] in b && MarkSymbols(a)[i] == MarkSymbols(b)[i];
    }
  }

  lemma MarkSymbolsMembers(a: seq<MarkAsOf>, prices: Marks)
    requires ListsMarks(a, prices)
    ensures forall s :: s in MarkSymbols(a) <==> HasLineage(prices, s)
  {
    hide Ascending;
    forall s | s in MarkSymbols(a)
      ensures HasLineage(prices, s)
    {
      var i :| 0 <= i < |a| && MarkSymbols(a)[i] == s;
      assert a[i] in a;
    }
    forall s | HasLineage(prices, s)
      ensures s in MarkSymbols(a)
    {
      var x := MarkLineage(prices, s);
      assert x in a;
      var i :| 0 <= i < |a| && a[i] == x;
      assert MarkSymbols(a)[i] == s;
    }
  }

  lemma {:induction false} RowsAreUnique(a: seq<Marked>, b: seq<Marked>)
    requires Ascending(Symbols(a)) && Ascending(Symbols(b)) && forall m :: m in a <==> m in b
    ensures a == b
  {
    SymbolsMembers(a);
    SymbolsMembers(b);
    AscendingUnique(Symbols(a), Symbols(b));
    forall i | 0 <= i < |a|
      ensures a[i] == b[i]
    {
      assert a[i] in b;
      var j :| 0 <= j < |b| && b[j] == a[i];
      assert Symbols(b)[j] == Symbols(a)[i] == Symbols(b)[i];
      AscendingDistinct(Symbols(b), i, j);
    }
  }

  lemma SymbolsMembers(a: seq<Marked>)
    ensures |Symbols(a)| == |a| && forall s :: s in Symbols(a) <==> exists m :: m in a && m.row.symbol == s
  {
    forall s | s in Symbols(a)
      ensures exists m :: m in a && m.row.symbol == s
    {
      var i :| 0 <= i < |a| && Symbols(a)[i] == s;
      assert a[i] in a;
    }
    forall m | m in a
      ensures m.row.symbol in Symbols(a)
    {
      var i :| 0 <= i < |a| && a[i] == m;
      assert Symbols(a)[i] == m.row.symbol;
    }
  }

  /** The view is a function of the data: the order of the positions and of the price map does not matter. */
  lemma ViewIsOrderFree(v: View, w: View, p: seq<Position>, q: seq<Position>, prices: Marks, trade: Option<ApplyMeta>)
    requires IsView(v, p, prices, trade) && IsView(w, q, prices, trade) && forall x :: x in p <==> x in q
    ensures v == w
  {
    hide MarkRow, Priced, Sum, Symbols, Ascending, TradeLineage, ListsMarks, Fused, Drives, Increasing;
    assert forall m :: m in v.rows <==> m in w.rows;
    RowsAreUnique(v.rows, w.rows);
    assert forall s :: s in v.unpriced <==> s in w.unpriced;
    AscendingUnique(v.unpriced, w.unpriced);
    MarksAreUnique(v.pricesAsOf, w.pricesAsOf, prices);
    IncreasingUnique(v.driving, w.driving);
    FusedIsUnique(v.asOf, w.asOf, v.positionsAsOf, prices);
  }

  lemma {:induction false} MarkedPermutation(positions: seq<Position>, prices: Marks)
    ensures |MarkAll(positions, prices)| == |positions|
    ensures forall m :: m in MarkAll(positions, prices) <==> exists p :: p in positions && m == MarkRow(p, prices)
  {
    hide MarkRow;
    var a := MarkAll(positions, prices);
    forall m | m in a
      ensures exists p :: p in positions && m == MarkRow(p, prices)
    {
      var i :| 0 <= i < |a| && a[i] == m;
      assert positions[i] in positions;
    }
    forall p | p in positions
      ensures MarkRow(p, prices) in a
    {
      var i :| 0 <= i < |positions| && positions[i] == p;
      assert a[i] == MarkRow(p, prices);
    }
  }

  function MarkAll(positions: seq<Position>, prices: Marks): seq<Marked> {
    seq(|positions|, i requires 0 <= i < |positions| => MarkRow(positions[i], prices))
  }

  predicate Distinct<T(==)>(s: seq<T>) {
    forall i, j :: 0 <= i < j < |s| ==> s[i] != s[j]
  }

  /** The totals of a view are the sums over the positions as they came. */
  lemma TotalsOfPositions(v: View, positions: seq<Position>, prices: Marks, trade: Option<ApplyMeta>)
    requires IsView(v, positions, prices, trade) && !Duplicated(positions)
    ensures v.totals == Sum(MarkAll(positions, prices))
  {
    var a := MarkAll(positions, prices);
    MarkedPermutation(positions, prices);
    assert Distinct(a) by {
      forall i, j | 0 <= i < j < |a|
        ensures a[i] != a[j]
      {
        assert positions[i].symbol != positions[j].symbol;
      }
    }
    assert Distinct(v.rows) by {
      forall i, j | 0 <= i < j < |v.rows|
        ensures v.rows[i] != v.rows[j]
      {
        if v.rows[i] == v.rows[j] {
          assert Symbols(v.rows)[i] == Symbols(v.rows)[j];
          AscendingDistinct(Symbols(v.rows), i, j);
        }
      }
    }
    hide MarkRow, Sum, Ascending, Symbols, MarkAll;
    assert forall m :: m in a <==> m in v.rows;
    SameMembers(a, v.rows);
    SumInAnyOrder(a, v.rows);
  }

  lemma {:induction false} DistinctCount<T>(s: seq<T>, x: T)
    requires Distinct(s)
    ensures multiset(s)[x] == if x in s then 1 else 0
  {
    if s != [] {
      var n := |s| - 1;
      DistinctCount(s[..n], x);
      assert s == s[..n] + [s[n]];
    }
  }

  lemma SameMembers<T>(a: seq<T>, b: seq<T>)
    requires Distinct(a) && Distinct(b) && forall x :: x in a <==> x in b
    ensures multiset(a) == multiset(b)
  {
    forall x
      ensures multiset(a)[x] == multiset(b)[x]
    {
      DistinctCount(a, x);
      DistinctCount(b, x);
    }
  }

  /** Every open position is either priced, and then its value is counted, or listed as unpriced; never both. */
  lemma OpenSymbolsSplit(v: View, positions: seq<Position>, prices: Marks, trade: Option<ApplyMeta>, p: Position)
    requires IsView(v, positions, prices, trade) && !Duplicated(positions) && p in positions && Open(p)
    ensures p.symbol in v.unpriced <==> !MarkRow(p, prices).hasPrice
    ensures MarkRow(p, prices) in v.rows
  {
    var i :| 0 <= i < |positions| && positions[i] == p;
    forall q | q in positions && q.symbol == p.symbol
      ensures q == p
    {
      var j :| 0 <= j < |positions| && positions[j] == q;
    }
    hide Sum, Ascending, Symbols, IsLatest;
  }

  // ----- assembling it -----

  /** The latest mark that an event set, over the map in any order. */
  method MergeAsOfCursor(prices: Marks) returns (best: Option<Cursor>)
    ensures match best case None => forall s :: !HasLineage(prices, s) case Some(m) => IsLatest(m, prices)
  {
    best := None;
    var todo := prices.Keys;
    while todo != {}
      invariant todo <= prices.Keys
      invariant best.None? ==> forall s :: HasLineage(prices, s) ==> s in todo
      invariant best.Some? ==>
                  (exists s :: HasLineage(prices, s) && prices[s].asOf == best.value) &&
                  forall s :: HasLineage(prices, s) && s !in todo ==> !best.value.Before(prices[s].asOf)
      decreases |todo|
    {
      var s :| s in todo;
      if HasLineage(prices, s) && (best.None? || best.value.Before(prices[s].asOf)) {
        best := Some(prices[s].asOf);
      }
      todo := todo - {s};
    }
  }

  /** The latest processing time, over the map in any order. */
  method MergeLatestProcessingTime(prices: Marks) returns (latest: Option<int>)
    ensures IsLatestProcessing(latest, prices)
  {
    latest := None;
    var todo := prices.Keys;
    while todo != {}
      invariant todo <= prices.Keys
      invariant latest.None? ==> forall s :: s in prices && s !in todo ==> prices[s].processed == 0
      invariant latest.Some? ==>
                  (exists s :: s in prices && prices[s].processed == latest.value != 0) &&
                  forall s :: s in prices && s !in todo && prices[s].processed != 0 ==> prices[s].processed <= latest.value
      decreases |todo|
    {
      var s :| s in todo;
      var t := prices[s].processed;
      if t != 0 && (latest.None? || t > latest.value) {
        latest := Some(t);
      }
      todo := todo - {s};
    }
  }

  function InsertId(ids: seq<nat>, id: nat): seq<nat> {
    if ids == [] || id < ids[0] then [id] + ids
    else if id == ids[0] then ids
    else [ids[0]] + InsertId(ids[1..], id)
  }

  lemma {:induction false} InsertIdFacts(ids: seq<nat>, id: nat)
    requires Increasing(ids)
    ensures Increasing(InsertId(ids, id)) && forall x :: x in InsertId(ids, id) <==> x == id || x in ids
  {
    if ids != [] && id > ids[0] {
      IncreasingTail(ids);
      InsertIdFacts(ids[1..], id);
      var rest := InsertId(ids[1..], id);
      forall j | 0 <= j < |rest|
        ensures ids[0] < rest[j]
      {
        assert rest[j] in rest;
      }
    }
  }

  /** The ids of the marks' events, and that of the trade cursor, once each in order. */
  method CollectDrivingEventIDs(positionsAsOf: Option<ReadAsOf>, prices: Marks) returns (ids: seq<nat>)
    ensures Increasing(ids) && forall id :: id in ids <==> Drives(id, positionsAsOf, prices)
  {
    hide Increasing, InsertId;
    ids := if positionsAsOf.Some? then [positionsAsOf.value.cursor.id] else [];
    assert Increasing(ids) by {
      AtMostOneIncreasing(ids);
    }
    var todo := prices.Keys;
    while todo != {}
      invariant todo <= prices.Keys && Increasing(ids)
      invariant forall id :: id in ids <==> (positionsAsOf.Some? && positionsAsOf.value.cursor.id == id) ||
                                            exists s :: HasLineage(prices, s) && s !in todo && prices[s].asOf.id == id
      decreases |todo|
    {
      var s :| s in todo;
      if HasLineage(prices, s) {
        InsertIdFacts(ids, prices[s].asOf.id);
        ids := InsertId(ids, prices[s].asOf.id);
      }
      todo := todo - {s};
    }
  }

  lemma AtMostOneIncreasing(ids: seq<nat>)
    requires |ids| <= 1
    ensures Increasing(ids)
  {
  }

  /** The marks that an event set, in symbol order. */
  method ListMarks(prices: Marks) returns (marks: seq<MarkAsOf>)
    ensures ListsMarks(marks, prices)
  {
    var symbols := Sort(prices.Keys);
    marks := [];
    var i := 0;
    while i < |symbols|
      invariant 0 <= i <= |symbols| && Ascending(MarkSymbols(marks))
      invariant forall x :: x in marks <==> x.symbol in symbols[..i] && HasLineage(prices, x.symbol) && x == MarkLineage(prices, x.symbol)
    {
      var s := symbols[i];
      assert s in symbols && symbols[..i + 1] == symbols[..i] + [s];
      if HasLineage(prices, s) {
        AddMark(marks, symbols, i, MarkLineage(prices, s));
        marks := marks + [MarkLineage(prices, s)];
      }
      i := i + 1;
    }
    assert symbols[..i] == symbols;
  }

  lemma AddMark(marks: seq<MarkAsOf>, symbols: seq<string>, i: nat, m: MarkAsOf)
    requires Ascending(symbols) && i < |symbols| && m.symbol == symbols[i]
    requires Ascending(MarkSymbols(marks)) && forall x :: x in marks ==> x.symbol in symbols[..i]
    ensures Ascending(MarkSymbols(marks + [m]))
  {
    hide Ascending;
    forall s | s in MarkSymbols(marks)
      ensures s in symbols[..i]
    {
      var k :| 0 <= k < |marks| && MarkSymbols(marks)[k] == s;
      assert marks[k] in marks;
    }
    AscendingSnoc(MarkSymbols(marks), symbols, i);
    assert MarkSymbols(marks + [m]) == MarkSymbols(marks) + [m.symbol];
  }

  method FuseAsOf(positionsAsOf: Option<ReadAsOf>, pricesAsOf: seq<MarkAsOf>, prices: Marks) returns (asOf: Option<AsOf>)
    requires ListsMarks(pricesAsOf, prices)
    ensures Fused(asOf, positionsAsOf, prices)
  {
    MarkSymbolsMembers(pricesAsOf, prices);
    assert pricesAsOf == [] <==> forall s :: !HasLineage(prices, s) by {
      assert pricesAsOf != [] ==> HasLineage(prices, MarkSymbols(pricesAsOf)[0]);
    }
    hide IsLatestProcessing, ListsMarks, IsLatest, HasLineage;
    asOf := None;
    if positionsAsOf.Some? {
      if pricesAsOf == [] {
        var c := positionsAsOf.value.cursor;
        asOf := Some(AsOf(c.id, Some(c.time), positionsAsOf.value.processed));
      }
    } else if pricesAsOf != [] {
      var m := MergeAsOfCursor(prices);
      var processed := MergeLatestProcessingTime(prices);
      asOf := Some(AsOf(m.value.id, Shown(m.value.time), processed));
    }
  }

  method AssemblePortfolioView(portfolio: nat, positions: seq<Position>, prices: Marks, trade: Option<ApplyMeta>)
    returns (r: Assembled)
    ensures portfolio == 0 ==> r == PortfolioIdRequired
    ensures portfolio != 0 ==> (Duplicated(positions) <==> r == DuplicateSymbol)
    ensures portfolio != 0 && !Duplicated(positions) ==> r.Assembled? && IsView(r.view, positions, prices, trade)
  {
    hide MarkRow, Sum, Ascending, Symbols, Priced, Duplicated, TradeLineage, ListsMarks, Fused, Drives, Increasing;
    if portfolio == 0 {
      return PortfolioIdRequired;
    }
    var dup, bySymbol := IndexPositions(positions);
    if dup {
      return DuplicateSymbol;
    }
    var symbols := Sort(bySymbol.Keys);
    var rows := MarkSorted(symbols, bySymbol, prices);
    var unpriced := UnpricedOf(symbols, bySymbol, prices);
    var totals := SumTotals(rows);
    var positionsAsOf := TradeLineage(trade);
    var driving := CollectDrivingEventIDs(positionsAsOf, prices);
    var pricesAsOf := ListMarks(prices);
    var asOf := FuseAsOf(positionsAsOf, pricesAsOf, prices);
    r := Assembled(View(rows, unpriced, totals, driving, positionsAsOf, pricesAsOf, asOf));
  }

  method IndexPositions(positions: seq<Position>) returns (dup: bool, bySymbol: map<string, Position>)
    ensures dup <==> Duplicated(positions)
    ensures !dup ==> forall p :: p in positions <==> p.symbol in bySymbol && bySymbol[p.symbol] == p
    ensures forall s :: s in bySymbol ==> bySymbol[s].symbol == s
  {
    bySymbol := map[];
    var i := 0;
    while i < |positions|
      invariant 0 <= i <= |positions| && !Duplicated(positions[..i])
      invariant forall s :: s in bySymbol <==> exists j :: 0 <= j < i && positions[j].symbol == s
      invariant forall j :: 0 <= j < i ==> bySymbol[positions[j].symbol] == positions[j]
      invariant forall s :: s in bySymbol ==> bySymbol[s].symbol == s
    {
      if positions[i].symbol in bySymbol {
        return true, map[];
      }
      bySymbol := bySymbol[positions[i].symbol := positions[i]];
      i := i + 1;
    }
    assert positions[..i] == positions;
    return false, bySymbol;
  }

  /** The marked rows, in the order of the symbols. */
  method MarkSorted(symbols: seq<string>, bySymbol: map<string, Position>, prices: Marks) returns (rows: seq<Marked>)
    requires Ascending(symbols) && forall s :: s in symbols <==> s in bySymbol
    requires forall s :: s in bySymbol ==> bySymbol[s].symbol == s
    ensures Ascending(Symbols(rows))
    ensures forall m :: m in rows <==>
                exists p: Position :: p.symbol in bySymbol && bySymbol[p.symbol] == p && m == MarkRow(p, prices)
  {
    hide Ascending;
    rows := [];
    var i := 0;
    while i < |symbols|
      invariant 0 <= i <= |symbols| && |rows| == i
      invariant forall k :: 0 <= k < i ==> rows[k] == MarkRow(bySymbol[symbols[k]], prices)
    {
      assert symbols[i] in symbols;
      rows := rows + [MarkRow(bySymbol[symbols[i]], prices)];
      i := i + 1;
    }
    assert Symbols(rows) == symbols;
    forall p: Position | p.symbol in bySymbol && bySymbol[p.symbol] == p
      ensures MarkRow(p, prices) in rows
    {
      var k :| 0 <= k < |symbols| && symbols[k] == p.symbol;
      assert rows[k] == MarkRow(p, prices);
    }
    forall m | m in rows
      ensures exists p: Position :: p.symbol in bySymbol && bySymbol[p.symbol] == p && m == MarkRow(p, prices)
    {
      var k :| 0 <= k < |rows| && rows[k] == m;
      assert symbols[k] in symbols;
      var p := bySymbol[symbols[k]];
      assert p.symbol in bySymbol;
    }
  }

  method UnpricedOf(symbols: seq<string>, bySymbol: map<string, Position>, prices: Marks) returns (unpriced: seq<string>)
    requires Ascending(symbols) && forall s :: s in symbols <==> s in bySymbol
    requires forall s :: s in bySymbol ==> bySymbol[s].symbol == s
    ensures Ascending(unpriced)
    ensures forall s :: s in unpriced <==> s in bySymbol && Open(bySymbol[s]) && !Priced(prices, s)
  {
    hide Priced;
    unpriced := [];
    var i := 0;
    while i < |symbols|
      invariant 0 <= i <= |symbols| && Ascending(unpriced)
      invariant forall s :: s in unpriced <==> s in symbols[..i] && Open(bySymbol[s]) && !Priced(prices, s)
    {
      assert symbols[i] in symbols;
      if Open(bySymbol[symbols[i]]) && !Priced(prices, symbols[i]) {
        AscendingSnoc(unpriced, symbols, i);
        unpriced := unpriced + [symbols[i]];
      }
      i := i + 1;
    }
    assert symbols[..i] == symbols;
  }

  lemma AscendingSnoc(a: seq<string>, symbols: seq<string>, i: nat)
    requires Ascending(a) && Ascending(symbols) && i < |symbols| && forall s :: s in a ==> s in symbols[..i]
    ensures Ascending(a + [symbols[i]])
  {
    forall k | 0 <= k < |a|
      ensures Less(a[k], symbols[i])
    {
      assert a[k] in symbols[..i];
      var j :| 0 <= j < i && symbols[j] == a[k];
    }
  }

  // ----- what a view says, read off the input -----

  /** The rows: every position once, with its mark when there is one that is not zero, and only then worth anything. */
  lemma RowsRead(v: View, positions: seq<Position>, prices: Marks, trade: Option<ApplyMeta>, p: Position)
    requires IsView(v, positions, prices, trade) && p in positions
    ensures exists m :: m in v.rows && m.row == p &&
              (m.hasPrice <==> p.symbol in prices && prices[p.symbol].price != 0.0) &&
              (m.hasPrice ==> m.lastPrice == prices[p.symbol].price) &&
              (if m.hasPrice && p.qty != 0.0
               then m.value == p.qty * m.lastPrice && m.unrealized == p.qty * m.lastPrice - p.qty * p.avg
               else m.value == 0.0 && m.unrealized == 0.0)
    ensures forall m :: m in v.rows ==> m.row in positions
    ensures p.qty != 0.0 && (p.symbol !in prices || prices[p.symbol].price == 0.0) ==> p.symbol in v.unpriced
    ensures forall s :: s in v.unpriced ==>
              (s !in prices || prices[s].price == 0.0) && exists q :: q in positions && q.symbol == s && q.qty != 0.0
  {
    hide Ascending, Symbols, Sum, ListsMarks, Fused, Drives, Increasing, TradeLineage, MarkRow;
    var m := MarkRow(p, prices);
    assert m in v.rows;
    RowRead(p, prices);
    forall m | m in v.rows
      ensures m.row in positions
    {
      var q :| q in positions && m == MarkRow(q, prices);
      RowRead(q, prices);
    }
  }

  lemma RowRead(p: Position, prices: Marks)
    ensures var m := MarkRow(p, prices);
            m.row == p && (m.hasPrice <==> p.symbol in prices && prices[p.symbol].price != 0.0) &&
            (m.hasPrice ==> m.lastPrice == prices[p.symbol].price) &&
            (if m.hasPrice && p.qty != 0.0
             then m.value == p.qty * m.lastPrice && m.unrealized == p.qty * m.lastPrice - p.qty * p.avg
             else m.value == 0.0 && m.unrealized == 0.0)
  {
    var x := PriceOf(prices, p.symbol);
    assert (x - p.avg) * p.qty == p.qty * x - p.qty * p.avg && x * p.qty == p.qty * x;
  }

  /** The totals: one more position adds its realized profit, and its value and unrealized profit when it is open and
      has a mark that is not zero. */
  lemma TotalsRead(positions: seq<Position>, p: Position, prices: Marks)
    ensures Sum(MarkAll([], prices)) == Totals(0.0, 0.0, 0.0)
    ensures var t, u := Sum(MarkAll(positions, prices)), Sum(MarkAll(positions + [p], prices));
            u.realized == t.realized + p.realized &&
            if p.qty != 0.0 && p.symbol in prices && prices[p.symbol].price != 0.0
            then u.value == t.value + p.qty * prices[p.symbol].price &&
                 u.unrealized == t.unrealized + (p.qty * prices[p.symbol].price - p.qty * p.avg)
            else u.value == t.value && u.unrealized == t.unrealized
  {
    var a, b := MarkAll(positions, prices), MarkAll(positions + [p], prices);
    assert b[..|a|] == a && b[|a|] == MarkRow(p, prices);
    assert MarkAll([], prices) == [];
    var x := PriceOf(prices, p.symbol);
    assert (x - p.avg) * p.qty == p.qty * x - p.qty * p.avg && x * p.qty == p.qty * x;
    hide MarkAll;
  }

  /** The lineage: the marks that an event set, each with its event's time, id and processing time; the ids of these and
      of the trade cursor; and at the top the trade cursor alone, or the greatest of the marks alone. */
  lemma LineageRead(v: View, positions: seq<Position>, prices: Marks, trade: Option<ApplyMeta>)
    requires IsView(v, positions, prices, trade)
    ensures forall x :: x in v.pricesAsOf <==>
              x.symbol in prices && prices[x.symbol].asOf.id != 0 && x.ref.cursor == prices[x.symbol].asOf &&
              x.ref.processed == if prices[x.symbol].processed == 0 then None else Some(prices[x.symbol].processed)
    ensures v.positionsAsOf ==
            if trade.Some? && trade.value.cursor.id != 0
            then Some(ReadAsOf(trade.value.cursor, if trade.value.processed == 0 then None else Some(trade.value.processed)))
            else None
    ensures forall id :: id in v.driving <==>
              id != 0 && ((trade.Some? && trade.value.cursor.id == id) || exists s :: s in prices && prices[s].asOf.id == id)
    ensures var traded, marked := trade.Some? && trade.value.cursor.id != 0, exists s :: s in prices && prices[s].asOf.id != 0;
            (v.asOf.Some? <==> traded != marked) &&
            (v.asOf.Some? && traded ==> v.asOf.value.id == trade.value.cursor.id && v.asOf.value.time == Some(trade.value.cursor.time))
    ensures v.asOf.Some? && (trade.None? || trade.value.cursor.id == 0) ==> AsOfLatest(v.asOf.value, prices)
  {
    hide Ascending, Symbols, Sum, MarkSymbols, IsLatestProcessing;
    AsOfRead(v.asOf, v.positionsAsOf, prices);
    hide Fused;
    forall x
      ensures x in v.pricesAsOf <==>
              x.symbol in prices && prices[x.symbol].asOf.id != 0 && x.ref.cursor == prices[x.symbol].asOf &&
              x.ref.processed == if prices[x.symbol].processed == 0 then None else Some(prices[x.symbol].processed)
    {
      assert x in v.pricesAsOf <==> HasLineage(prices, x.symbol) && x == MarkLineage(prices, x.symbol);
    }
    hide ListsMarks;
    forall id
      ensures id in v.driving <==>
              id != 0 && ((trade.Some? && trade.value.cursor.id == id) || exists s :: s in prices && prices[s].asOf.id == id)
    {
      assert id in v.driving <==> Drives(id, v.positionsAsOf, prices);
    }
  }

  /** The event of a mark that no mark with an event comes after. */
  ghost predicate AsOfLatest(a: AsOf, prices: Marks) {
    exists s :: s in prices && prices[s].asOf.id == a.id != 0 &&
      a.time == (if prices[s].asOf.time == 0 then None else Some(prices[s].asOf.time)) &&
      forall r :: r in prices && prices[r].asOf.id != 0 ==>
        prices[r].asOf.time < prices[s].asOf.time ||
        (prices[r].asOf.time == prices[s].asOf.time && prices[r].asOf.id <= prices[s].asOf.id)
  }

  lemma AsOfRead(asOf: Option<AsOf>, trade: Option<ReadAsOf>, prices: Marks)
    requires Fused(asOf, trade, prices)
    ensures var marked := exists s :: s in prices && prices[s].asOf.id != 0;
            (asOf.Some? <==> trade.Some? != marked) &&
            (asOf.Some? && trade.Some? ==> asOf.value.id == trade.value.cursor.id && asOf.value.time == Some(trade.value.cursor.time)) &&
            (asOf.Some? && trade.None? ==> AsOfLatest(asOf.value, prices))
  {
    hide IsLatestProcessing;
    if s :| s in prices && prices[s].asOf.id != 0 {
      assert HasLineage(prices, s);
    }
    if asOf.Some? && trade.None? {
      var m: Cursor :| IsLatest(m, prices) && m.id == asOf.value.id && asOf.value.time == Shown(m.time);
      var s :| HasLineage(prices, s) && prices[s].asOf == m;
      forall r | r in prices && prices[r].asOf.id != 0
        ensures prices[r].asOf.time < m.time || (prices[r].asOf.time == m.time && prices[r].asOf.id <= m.id)
      {
        assert HasLineage(prices, r);
      }
    }
  }
}
