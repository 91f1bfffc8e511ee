/** Snapshot bodies of format rtpre_trade_positions_v1: writing the lots of a portfolio and reading them back. */
module SnapshotCodec {
  import opened Decimals
  import opened Positions
  import opened History
  import opened SortedStrings
  import opened Options

  // ----- decimal text with eight places -----

  predicate IsDigit(c: char) {
    '0' <= c <= '9'
  }

  function Digit(d: int): (c: char)
    requires 0 <= d < 10
    ensures IsDigit(c) && c as int - '0' as int == d
  {
    ('0' as int + d) as char
  }

  predicate AllDigits(s: string) {
    forall i :: 0 <= i < |s| ==> IsDigit(s[i])
  }

  function Digits(n: nat): (s: string)
    ensures s != "" && AllDigits(s)
  {
    if n < 10 then [Digit(n)] else Digits(n / 10) + [Digit(n % 10)]
  }

  function Padded(n: nat, width: nat): (s: string)
    ensures |s| == width && AllDigits(s)
  {
    if width == 0 then "" else Padded(n / 10, width - 1) + [Digit(n % 10)]
  }

  function Read(s: string): int
    requires AllDigits(s)
  {
    if s == "" then 0 else 10 * Read(s[..|s| - 1]) + (s[|s| - 1] as int - '0' as int)
  }

  function Pow10(n: nat): (p: int)
    ensures p >= 1
  {
    if n == 0 then 1 else 10 * Pow10(n - 1)
  }

  lemma ReadSnoc(s: string, d: int)
    requires AllDigits(s) && 0 <= d < 10
    ensures Read(s + [Digit(d)]) == 10 * Read(s) + d
  {
    assert (s + [Digit(d)])[..|s|] == s;
  }

  lemma {:induction false} ReadDigits(n: nat)
    ensures Read(Digits(n)) == n
  {
    if n < 10 {
      ReadSnoc("", n);
      assert "" + [Digit(n)] == [Digit(n)];
    } else {
      ReadDigits(n / 10);
      ReadSnoc(Digits(n / 10), n % 10);
      hide Read;
    }
  }

  lemma {:induction false} ReadPadded(n: nat, width: nat)
    requires n < Pow10(width)
    ensures Read(Padded(n, width)) == n
  {
    if width > 0 {
      ReadPadded(n / 10, width - 1);
      ReadSnoc(Padded(n / 10, width - 1), n % 10);
      hide Read;
    }
  }

  /** The fixed-place text of a number of 1e-8 units. */
  function StringFixed8(units: int): string {
    var u := if units < 0 then -units else units;
    (if units < 0 then "-" else "") + (Digits(u / 100000000) + "." + Padded(u % 100000000, 8))
  }

  // ----- reading decimal text -----

  /** The first position of any of the characters, or the length. */
  function Find(s: string, chars: set<char>): (k: nat)
    ensures k <= |s| && (forall i :: 0 <= i < k ==> s[i] !in chars) && (k < |s| ==> s[k] in chars)
  {
    if s == "" || s[0] in chars then 0 else 1 + Find(s[1..], chars)
  }

  /** Digits with an optional sign. */
  function ReadInt(s: string): Option<int> {
    var signed := s != "" && (s[0] == '-' || s[0] == '+');
    var digits := if signed then s[1..] else s;
    if digits == "" || !AllDigits(digits) then None
    else Some(if signed && s[0] == '-' then -Read(digits) else Read(digits))
  }

  predicate Fits32(n: int) {
    -0x8000_0000 <= n < 0x8000_0000
  }

  function ReadExponent(s: string): Option<int> {
    match ReadInt(s)
    case None => None
    case Some(n) => if Fits32(n) then Some(n) else None
  }

  function Scaled(n: int, exp: int): real {
    if exp >= 0 then (n * Pow10(exp)) as real else n as real / Pow10(-exp) as real
  }

  /** Decimal text as the decimal library reads it: an optional exponent of 32 bits after the first e or E; before it at
      most one point, anywhere; what is left without the point is digits with an optional sign. */
  function NewFromString(s: string): Option<real> {
    var k := Find(s, {'e', 'E'});
    match if k == |s| then Some(0) else ReadExponent(s[k + 1..])
    case None => None
    case Some(exp) => ReadMantissa(s[..k], exp)
  }

  function ReadMantissa(m: string, exp: int): Option<real> {
    var p := Find(m, {'.'});
    if p == |m| then ScaledBy(ReadInt(m), exp)
    else
      var places := m[p + 1..];
      if '.' in places then None else ScaledBy(ReadInt(m[..p] + places), exp - |places|)
  }

  function ScaledBy(n: Option<int>, exp: int): Option<real> {
    if n.None? || !Fits32(exp) then None else Some(Scaled(n.value, exp))
  }

  lemma ShiftOnce(a: int, p: int, c: int)
    ensures 10 * (a * p + c) == a * (10 * p) + 10 * c
  {
  }

  lemma {:induction false} ReadConcat(a: string, b: string)
    requires AllDigits(a) && AllDigits(b)
    ensures AllDigits(a + b) && Read(a + b) == Read(a) * Pow10(|b|) + Read(b)
  {
    if b == "" {
      assert a + b == a;
    } else {
      var c := b[..|b| - 1];
      ReadConcat(a, c);
      ShiftOnce(Read(a), Pow10(|c|), Read(c));
      ReadLast(b);
      assert (a + b)[..|a + b| - 1] == a + c;
      ReadLast(a + b);
      hide Read, AllDigits;
    }
  }

  lemma ReadLast(s: string)
    requires AllDigits(s) && s != ""
    ensures AllDigits(s[..|s| - 1]) && Read(s) == 10 * Read(s[..|s| - 1]) + (s[|s| - 1] as int - '0' as int)
  {
  }

  lemma Pow10Eight()
    ensures Pow10(8) == 100000000
  {
  }

  lemma ReadUnits(u: nat)
    ensures var digits := Digits(u / 100000000) + Padded(u % 100000000, 8);
            AllDigits(digits) && Read(digits) == u
  {
    hide Read, Digits, Padded, Pow10;
    Pow10Eight();
    ReadDigits(u / 100000000);
    ReadPadded(u % 100000000, 8);
    ReadConcat(Digits(u / 100000000), Padded(u % 100000000, 8));
  }

  lemma FindIs(s: string, chars: set<char>, k: nat)
    requires k <= |s| && (forall i :: 0 <= i < k ==> s[i] !in chars) && (k < |s| ==> s[k] in chars)
    ensures Find(s, chars) == k
  {
  }

  /** An optional sign and digits. */
  lemma ReadSigned(sign: string, digits: string)
    requires (sign == "" || sign == "-" || sign == "+") && AllDigits(digits) && digits != ""
    ensures ReadInt(sign + digits) == Some(if sign == "-" then -Read(digits) else Read(digits))
  {
    hide Read;
    if sign == "" {
      assert sign + digits == digits && IsDigit(digits[0]);
    } else {
      assert (sign + digits)[1..] == digits && (sign + digits)[0] == sign[0];
    }
  }

  /** A sign and digits with a point before the last eight of them. */
  lemma ReadPointed(sign: string, a: string, b: string)
    requires (sign == "" || sign == "-") && AllDigits(a) && AllDigits(b) && a != "" && |b| == 8
    ensures NewFromString(sign + a + "." + b) == ScaledBy(ReadInt(sign + (a + b)), -8)
  {
    hide Find, ReadInt, ScaledBy;
    var s, p := sign + a + "." + b, |sign| + |a|;
    forall i | 0 <= i < |s| && i != p
      ensures s[i] == '-' || IsDigit(s[i])
    {
      if i < |sign| {
        assert s[i] == sign[i] == '-';
      } else if i < p {
        assert s[i] == a[i - |sign|];
      } else {
        assert s[i] == b[i - p - 1];
      }
    }
    assert s[p] == '.';
    FindIs(s, {'e', 'E'}, |s|);
    FindIs(s, {'.'}, p);
    assert s[..|s|] == s && s[p + 1..] == b && s[..p] == sign + a;
    assert sign + a + b == sign + (a + b);
  }

  lemma ScaledUnits(n: int)
    ensures Scaled(n, -8) == FromUnits(n)
  {
    Pow10Eight();
    hide Pow10;
  }

  /** What is written is read back. */
  lemma TextRoundTrip(units: int)
    ensures NewFromString(StringFixed8(units)) == Some(FromUnits(units))
  {
    hide NewFromString, Read, Digits, Padded, AllDigits, Scaled, FromUnits, ReadInt;
    var u := if units < 0 then -units else units;
    var sign, a, b := if units < 0 then "-" else "", Digits(u / 100000000), Padded(u % 100000000, 8);
    assert StringFixed8(units) == sign + a + "." + b;
    ReadUnits(u);
    ReadPointed(sign, a, b);
    ReadSigned(sign, a + b);
    ScaledUnits(units);
  }

  lemma ExponentSplits(a: string, x: string)
    requires AllDigits(a) && a != ""
    ensures NewFromString(a + "e" + x) == match ReadExponent(x) case None => None case Some(exp) => ScaledBy(Some(Read(a)), exp)
  {
    hide Read, ReadExponent, ScaledBy, Find;
    var s := a + "e" + x;
    assert s[|a|] == 'e' && forall i :: 0 <= i < |a| ==> s[i] == a[i] && IsDigit(s[i]);
    FindIs(s, {'e', 'E'}, |a|);
    FindIs(a, {'.'}, |a|);
    assert s[..|a|] == a && s[|a| + 1..] == x;
    assert "" + a == a;
    ReadSigned("", a);
  }

  lemma ReadExponentDigits(sign: string, n: nat)
    requires sign == "" || sign == "-"
    ensures var exp: int := if sign == "-" then 0 - n else n;
            ReadExponent(sign + Digits(n)) == if -2147483648 <= exp <= 2147483647 then Some(exp) else None
  {
    ReadDigits(n);
    ReadSigned(sign, Digits(n));
    hide Read, ReadInt, Digits;
  }

  lemma ScaledUp(v: int, n: nat)
    ensures ScaledBy(Some(v), n) == if n <= 2147483647 then Some((v * Pow10(n)) as real) else None
  {
    hide Pow10;
  }

  lemma ScaledDown(v: int, n: nat)
    ensures ScaledBy(Some(v), 0 - n) == if n <= 2147483648 then Some(v as real / Pow10(n) as real) else None
  {
    assert Pow10(0) == 1;
    assert (v * 1) as real == v as real / 1 as real;
    hide Pow10;
  }

  /** A power of ten scales the digits in front of it, as long as its exponent has 32 bits. */
  lemma ExponentScales(a: string, n: nat)
    requires AllDigits(a) && a != ""
    ensures NewFromString(a + "e" + Digits(n)) == if n <= 2147483647 then Some((Read(a) * Pow10(n)) as real) else None
    ensures NewFromString(a + "e" + ("-" + Digits(n))) ==
            if n <= 2147483648 then Some(Read(a) as real / Pow10(n) as real) else None
  {
    hide NewFromString, Read, Digits, Pow10, ReadExponent, ScaledBy, Scaled;
    ReadExponentDigits("", n);
    ReadExponentDigits("-", n);
    ExponentSplits(a, Digits(n));
    ExponentSplits(a, "-" + Digits(n));
    assert "" + Digits(n) == Digits(n);
    ScaledUp(Read(a), n);
    ScaledDown(Read(a), n);
  }

  function Units(x: real): int {
    Nearest(x * 100000000.0)
  }

  function FromUnits(u: int): real {
    u as real / 100000000.0
  }

  // ----- bodies -----

  datatype SnapshotRow = SnapshotRow(symbol: string, quantity: string, averageCost: string, realizedPnl: string)

  datatype Body = Body(format: string, positions: seq<SnapshotRow>)

  const FORMAT := "rtpre_trade_positions_v1"

  function RowFor(symbol: string, lot: PositionLot): SnapshotRow {
    SnapshotRow(symbol, StringFixed8(Units(lot.qty)), StringFixed8(Units(lot.avg)), StringFixed8(Units(lot.realized)))
  }

  /** The symbols of the lots, in order. */
  ghost predicate Lists(symbols: seq<string>, lots: Lots) {
    Ascending(symbols) && forall s :: s in symbols <==> s in lots
  }

  function RowsFor(symbols: seq<string>, lots: Lots): seq<SnapshotRow>
    requires forall s :: s in symbols ==> s in lots
  {
    seq(|symbols|, i requires 0 <= i < |symbols| => RowFor(symbols[i], lots[symbols[i]]))
  }

  /** The body is the one written for the lots. */
  ghost predicate Writes(b: Body, lots: Lots) {
    b.format == FORMAT &&
    exists symbols :: Lists(symbols, lots) && b.positions == RowsFor(symbols, lots)
  }

  /** All symbols, sorted. */
  method SortedSymbols(lots: Lots) returns (symbols: seq<string>)
    ensures Lists(symbols, lots)
  {
    symbols := Sort(lots.Keys);
  }

  /** One row per symbol in ascending order, with eight decimal places. */
  method MarshalTradePositionsSnapshot(lots: Lots) returns (b: Body)
    ensures Writes(b, lots)
  {
    var symbols := SortedSymbols(lots);
    hide Lists, RowFor;
    assert forall s :: s in symbols <==> s in lots by {
      ListedSymbols(symbols, lots);
    }
    var rows: seq<SnapshotRow> := [];
    var i := 0;
    while i < |symbols|
      invariant 0 <= i <= |symbols| && |rows| == i
      invariant forall k :: 0 <= k < i ==> rows[k] == RowFor(symbols[k], lots[symbols[k]])
    {
      assert symbols[i] in symbols;
      rows := rows + [RowFor(symbols[i], lots[symbols[i]])];
      i := i + 1;
    }
    assert rows == RowsFor(symbols, lots);
    b := Body(FORMAT, rows);
  }

  lemma ListedSymbols(symbols: seq<string>, lots: Lots)
    requires Lists(symbols, lots)
    ensures forall s :: s in symbols <==> s in lots
  {
  }

  datatype ParseError = UnsupportedFormat | EmptySymbol | BadNumber

  datatype Parsed = Parsed(lots: map<string, PositionLot>) | ParseFailed(error: ParseError)

  function ParseRow(row: SnapshotRow, lots: map<string, PositionLot>): Parsed {
    if row.symbol == "" then ParseFailed(EmptySymbol)
    else
      var q, a, r := NewFromString(row.quantity), NewFromString(row.averageCost), NewFromString(row.realizedPnl);
      if q.None? || a.None? || r.None? then ParseFailed(BadNumber)
      else Parsed(lots[row.symbol := PositionLot(q.value, a.value, r.value)])
  }

  function ParseRows(rows: seq<SnapshotRow>): Parsed {
    if rows == [] then Parsed(map[])
    else
      match ParseRows(rows[..|rows| - 1])
      case ParseFailed(e) => ParseFailed(e)
      case Parsed(lots) => ParseRow(rows[|rows| - 1], lots)
  }

  /** No data is an empty portfolio; another format is refused. */
  function Parse(data: Option<Body>): Parsed {
    if data.None? then Parsed(map[])
    else if data.value.format != FORMAT then ParseFailed(UnsupportedFormat)
    else ParseRows(data.value.positions)
  }

  method ParseTradePositionsSnapshot(data: Option<Body>) returns (r: Parsed)
    ensures r == Parse(data)
  {
    if data.None? {
      return Parsed(map[]);
    }
    if data.value.format != FORMAT {
      return ParseFailed(UnsupportedFormat);
    }
    hide ParseRow;
    var rows := data.value.positions;
    var lots: map<string, PositionLot> := map[];
    var i := 0;
    while i < |rows|
      invariant 0 <= i <= |rows|
      invariant ParseRows(rows[..i]) == Parsed(lots)
    {
      assert rows[..i + 1][..i] == rows[..i];
      var next := ParseRow(rows[i], lots);
      if next.ParseFailed? {
        FailureStays(rows, i + 1);
        return next;
      }
      lots := next.lots;
      i := i + 1;
    }
    assert rows[..i] == rows;
    return Parsed(lots);
  }

  lemma {:induction false} FailureStays(rows: seq<SnapshotRow>, i: nat)
    requires i <= |rows| && ParseRows(rows[..i]).ParseFailed?
    ensures ParseRows(rows) == ParseRows(rows[..i])
  {
    hide ParseRow;
    if i == |rows| {
      assert rows[..i] == rows;
    } else {
      assert rows[..|rows| - 1][..i] == rows[..i];
      FailureStays(rows[..|rows| - 1], i);
    }
  }

  // ----- round trip -----

  lemma ParseRowFor(symbol: string, lot: Lot, lots: map<string, PositionLot>)
    ensures ParseRow(RowFor(symbol, lot), lots) ==
            if symbol == "" then ParseFailed(EmptySymbol) else Parsed(lots[symbol := RoundLot(lot)])
  {
    TextRoundTrip(Units(lot.qty));
    TextRoundTrip(Units(lot.avg));
    TextRoundTrip(Units(lot.realized));
    hide NewFromString, StringFixed8, Nearest;
  }

  lemma {:induction false} ParseRowsFor(symbols: seq<string>, lots: Lots)
    requires forall s :: s in symbols ==> s in lots
    ensures ParseRows(RowsFor(symbols, lots)) ==
            if "" in symbols then ParseFailed(EmptySymbol) else Parsed(map s | s in symbols :: RoundLot(lots[s]))
  {
    hide RowFor, ParseRow, RoundLot;
    if symbols == [] {
      assert RowsFor(symbols, lots) == [];
    } else {
      var p, s := symbols[..|symbols| - 1], symbols[|symbols| - 1];
      assert symbols == p + [s] && s in symbols;
      ParseRowsFor(p, lots);
      var rows := RowsFor(symbols, lots);
      assert rows[..|rows| - 1] == RowsFor(p, lots);
      ParseRowFor(s, lots[s], map x | x in p :: RoundLot(lots[x]));
      hide RowsFor;
    }
  }

  /** Snapshot round trip: what was written for the lots is read back as the lots rounded to eight places,
      exactly when no lot has an empty symbol; otherwise reading fails. */
  lemma SnapshotRoundTrip(b: Body, lots: Lots)
    requires Writes(b, lots)
    ensures Parse(Some(b)) == if "" in lots then ParseFailed(EmptySymbol) else Parsed(Rounded(lots))
  {
    var symbols :| Lists(symbols, lots) && b.positions == RowsFor(symbols, lots);
    ParseRowsFor(symbols, lots);
    hide ParseRows, RowsFor, RoundLot;
    assert (map s | s in symbols :: RoundLot(lots[s])) == Rounded(lots);
  }

  /** The body does not depend on the order in which the lots are visited. */
  lemma BodyIsUnique(b: Body, c: Body, lots: Lots)
    requires Writes(b, lots) && Writes(c, lots)
    ensures b == c
  {
    var x :| Lists(x, lots) && b.positions == RowsFor(x, lots);
    var y :| Lists(y, lots) && c.positions == RowsFor(y, lots);
    AscendingUnique(x, y);
  }
}
