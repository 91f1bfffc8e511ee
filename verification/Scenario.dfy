/** What-if shocks on price marks, and what they do to the totals of a view. */
module Scenario {
  import opened Events
  import opened Options
  import opened View

  datatype Shock = Shock(symbol: string, kind: string, value: real)

  datatype ShockError = EmptyShocks | EmptyShockSymbol | InvalidShockType | RepeatedShockSymbol | NilPortfolioId

  // ----- validation -----

  predicate Named(shocks: seq<Shock>, symbol: string) {
    exists x :: x in shocks && x.symbol == symbol
  }

  predicate Valid(shocks: seq<Shock>) {
    shocks != [] &&
    (forall x :: x in shocks ==> x.symbol != "" && x.kind == "PCT") &&
    OnePerSymbol(shocks)
  }

  predicate OnePerSymbol(shocks: seq<Shock>) {
    forall i, j :: 0 <= i < j < |shocks| ==> shocks[i].symbol != shocks[j].symbol
  }

  /** Reports the first shock that is not acceptable. */
  method ValidateShocks(shocks: seq<Shock>) returns (err: Option<ShockError>)
    ensures err.None? <==> Valid(shocks)
    ensures err == Some(EmptyShocks) <==> shocks == []
    ensures err == Some(EmptyShockSymbol) ==> Named(shocks, "")
    ensures err == Some(InvalidShockType) ==> exists x :: x in shocks && x.kind != "PCT"
    ensures err == Some(RepeatedShockSymbol) ==> !OnePerSymbol(shocks)
    ensures err != Some(NilPortfolioId)
  {
    if shocks == [] {
      return Some(EmptyShocks);
    }
    var seen: set<string> := {};
    var i := 0;
    while i < |shocks|
      invariant 0 <= i <= |shocks|
      invariant seen == set k | 0 <= k < i :: shocks[k].symbol
      invariant i > 0 ==> Valid(shocks[..i])
    {
      assert shocks[i] in shocks;
      if shocks[i].symbol == "" {
        return Some(EmptyShockSymbol);
      }
      if shocks[i].kind != "PCT" {
        return Some(InvalidShockType);
      }
      if shocks[i].symbol in seen {
        return Some(RepeatedShockSymbol);
      }
      seen := seen + {shocks[i].symbol};
      i := i + 1;
    }
    assert shocks[..i] == shocks;
    return None;
  }

  // ----- shocked marks -----

  /** The shocked mark of a priced symbol; another symbol has nothing to shock. */
  function ShockOne(prices: Marks, x: Shock): Marks {
    if Priced(prices, x.symbol)
    then prices[x.symbol := prices[x.symbol].(price := ShockedPrice(prices[x.symbol].price, x.value))]
    else prices
  }

  function ShockedPrice(price: real, value: real): real {
    price * (1.0 + value)
  }

  function ShockAll(prices: Marks, shocks: seq<Shock>): Marks {
    if shocks == [] then prices else ShockOne(ShockAll(prices, shocks[..|shocks| - 1]), shocks[|shocks| - 1])
  }

  /** The fractional change asked for a symbol; zero when it is not shocked. */
  function ValueFor(shocks: seq<Shock>, symbol: string): real {
    if shocks == [] then 0.0
    else if shocks[|shocks| - 1].symbol == symbol then shocks[|shocks| - 1].value
    else ValueFor(shocks[..|shocks| - 1], symbol)
  }

  lemma {:induction false} NotNamed(shocks: seq<Shock>, symbol: string)
    requires !Named(shocks, symbol)
    ensures ValueFor(shocks, symbol) == 0.0
  {
    if shocks != [] {
      var p, x := shocks[..|shocks| - 1], shocks[|shocks| - 1];
      assert x in shocks;
      assert forall y :: y in p ==> y in shocks;
      NotNamed(p, symbol);
    }
  }

  /** A shocked mark is its base mark times one plus the value; nothing else changes. */
  lemma {:induction false} ShockAllAt(prices: Marks, shocks: seq<Shock>, symbol: string)
    requires OnePerSymbol(shocks)
    ensures ShockAll(prices, shocks).Keys == prices.Keys
    ensures symbol in prices ==>
              ShockAll(prices, shocks)[symbol] ==
              prices[symbol].(price := ShockedPrice(prices[symbol].price, ValueFor(shocks, symbol)))
  {
    if shocks != [] {
      var p, x := shocks[..|shocks| - 1], shocks[|shocks| - 1];
      ShockAllAt(prices, p, symbol);
      if x.symbol == symbol {
        assert !Named(p, symbol);
        NotNamed(p, symbol);
      }
    }
  }

  lemma {:induction false} ValueForMember(shocks: seq<Shock>, x: Shock)
    requires OnePerSymbol(shocks) && x in shocks
    ensures ValueFor(shocks, x.symbol) == x.value
  {
    var p, y := shocks[..|shocks| - 1], shocks[|shocks| - 1];
    assert shocks == p + [y];
    if x != y {
      var i :| 0 <= i < |p| && p[i] == x;
      assert shocks[i].symbol != shocks[|p|].symbol;
      ValueForMember(p, x);
    }
  }

  /** The order of the shocks does not matter. */
  lemma ShockOrderIsIrrelevant(prices: Marks, a: seq<Shock>, b: seq<Shock>)
    requires OnePerSymbol(a) && OnePerSymbol(b) && forall x :: x in a <==> x in b
    ensures ShockAll(prices, a) == ShockAll(prices, b)
  {
    ShockAllAt(prices, a, "");
    ShockAllAt(prices, b, "");
    forall s | s in prices
      ensures ShockAll(prices, a)[s] == ShockAll(prices, b)[s]
    {
      ShockAllAt(prices, a, s);
      ShockAllAt(prices, b, s);
      if Named(a, s) {
        var x :| x in a && x.symbol == s;
        ValueForMember(a, x);
        ValueForMember(b, x);
      } else {
        NotNamed(a, s);
        NotNamed(b, s);
      }
    }
    hide ShockAll;
    assert ShockAll(prices, a).Keys == ShockAll(prices, b).Keys;
  }

  lemma ShockedTwice(price: real, a: real, b: real)
    ensures ShockedPrice(ShockedPrice(price, a), b) == ShockedPrice(price, (1.0 + a) * (1.0 + b) - 1.0)
  {
    var c := (1.0 + a) * (1.0 + b);
    assert (price * (1.0 + a)) * (1.0 + b) == price * c;
  }

  lemma MulPositive(x: real, y: real)
    requires x >= 0.0 && y > 0.0
    ensures x * y >= 0.0 && (x * y == 0.0 <==> x == 0.0)
  {
    if x > 0.0 {
      assert x * y > 0.0;
    }
  }

  lemma NonZeroProduct(x: real, y: real)
    requires x != 0.0 && y != 0.0
    ensures x * y != 0.0
  {
    if x > 0.0 {
      MulPositive(x, if y > 0.0 then y else -y);
    } else {
      MulPositive(-x, if y > 0.0 then y else -y);
    }
  }

  lemma ShockedToZeroIff(price: real, value: real)
    requires price != 0.0
    ensures ShockedPrice(price, value) == 0.0 <==> value == -1.0
  {
    if value != -1.0 {
      NonZeroProduct(price, 1.0 + value);
    }
  }

  /** Two shocks of one symbol in succession are one shock by (1 + a)(1 + b) - 1; the second one still finds
      a mark exactly when the first was not minus one. */
  lemma ShocksCompose(prices: Marks, s: string, kind: string, a: real, b: real)
    requires Priced(prices, s)
    ensures var once := ShockOne(prices, Shock(s, kind, a));
            (Priced(once, s) <==> a != -1.0) &&
            (a != -1.0 ==> ShockOne(once, Shock(s, kind, b)) == ShockOne(prices, Shock(s, kind, (1.0 + a) * (1.0 + b) - 1.0)))
  {
    ShockedTwice(prices[s].price, a, b);
    ShockedToZeroIff(prices[s].price, a);
    hide ShockedPrice;
    var once := ShockOne(prices, Shock(s, kind, a));
    if a != -1.0 {
      var m := prices[s];
      assert once[s] == m.(price := ShockedPrice(m.price, a));
    }
  }

  // ----- the shocked input -----

  datatype Input = Input(portfolio: nat, positions: seq<Position>, prices: Marks, trade: Option<Cursor>)

  datatype Outcome = Ready(input: Input) | Missing(symbols: seq<string>) | Refused(error: ShockError)

  function MissingFrom(prices: Marks, shocks: seq<Shock>): seq<string> {
    if shocks == [] then []
    else
      var x := shocks[|shocks| - 1];
      MissingFrom(prices, shocks[..|shocks| - 1]) + if Priced(prices, x.symbol) then [] else [x.symbol]
  }

  /** Copies the input with shocked marks; positions and trade lineage are kept, and the base is unchanged. */
  method ShockedPortfolioInput(base: Input, shocks: seq<Shock>) returns (r: Outcome)
    ensures !Valid(shocks) ==> r.Refused? && r.error != NilPortfolioId
    ensures Valid(shocks) && base.portfolio == 0 ==> r == Refused(NilPortfolioId)
    ensures Valid(shocks) && base.portfolio != 0 ==>
              r == if MissingFrom(base.prices, shocks) != [] then Missing(MissingFrom(base.prices, shocks))
                   else Ready(base.(prices := ShockAll(base.prices, shocks)))
    ensures Valid(shocks) && base.portfolio != 0 ==> Answers(base, shocks, r)
  {
    var err := ValidateShocks(shocks);
    if err.Some? {
      return Refused(err.value);
    }
    if base.portfolio == 0 {
      return Refused(NilPortfolioId);
    }
    var prices := base.prices;
    var missing: seq<string> := [];
    var i := 0;
    assert OnePerSymbol(shocks);
    hide Valid, Answers;
    while i < |shocks|
      invariant 0 <= i <= |shocks|
      invariant prices == ShockAll(base.prices, shocks[..i])
      invariant missing == MissingFrom(base.prices, shocks[..i])
    {
      assert shocks[..i + 1][..i] == shocks[..i];
      StillPriced(base.prices, shocks, i);
      if Priced(prices, shocks[i].symbol) {
        prices := ShockOne(prices, shocks[i]);
        assert missing + [] == missing;
      } else {
        missing := missing + [shocks[i].symbol];
      }
      i := i + 1;
    }
    assert shocks[..i] == shocks;
    r := if missing != [] then Missing(missing) else Ready(base.(prices := prices));
    AnswerRead(base, shocks, r);
  }

  /** The earlier shocks do not touch the symbol. */
  lemma StillPriced(prices: Marks, shocks: seq<Shock>, i: nat)
    requires OnePerSymbol(shocks) && i < |shocks|
    ensures Priced(ShockAll(prices, shocks[..i]), shocks[i].symbol) <==> Priced(prices, shocks[i].symbol)
  {
    ShockAllAt(prices, shocks[..i], shocks[i].symbol);
    assert !Named(shocks[..i], shocks[i].symbol);
    NotNamed(shocks[..i], shocks[i].symbol);
    hide ShockAll, ValueFor;
  }

  // ----- the answer, read off the base -----

  /** A shocked symbol that has no mark, or a zero one. */
  predicate Unmarked(prices: Marks, x: Shock) {
    x.symbol !in prices || prices[x.symbol].price == 0.0
  }

  lemma {:induction false} MissingRead(prices: Marks, shocks: seq<Shock>)
    ensures MissingFrom(prices, shocks) == [] <==> forall x :: x in shocks ==> !Unmarked(prices, x)
    ensures forall s :: s in MissingFrom(prices, shocks) <==> exists x :: x in shocks && Unmarked(prices, x) && x.symbol == s
  {
    if shocks != [] {
      var p, x := shocks[..|shocks| - 1], shocks[|shocks| - 1];
      assert shocks == p + [x];
      MissingRead(prices, p);
      assert forall y :: y in shocks <==> y in p || y == x;
      hide MissingFrom;
      assert MissingFrom(prices, shocks) == MissingFrom(prices, p) + if Unmarked(prices, x) then [x.symbol] else [] by {
        MissingLast(prices, shocks);
      }
    }
  }

  lemma MissingLast(prices: Marks, shocks: seq<Shock>)
    requires shocks != []
    ensures var p, x := shocks[..|shocks| - 1], shocks[|shocks| - 1];
            MissingFrom(prices, shocks) == MissingFrom(prices, p) + if Unmarked(prices, x) then [x.symbol] else []
  {
  }

  /** The place of a symbol in the list of shocks. */
  ghost predicate ShockedAt(shocks: seq<Shock>, i: nat, symbol: string) {
    i < |shocks| && shocks[i].symbol == symbol
  }

  /** The symbols come in the order of their shocks. */
  ghost predicate InShockOrder(shocks: seq<Shock>, symbols: seq<string>) {
    forall a, b, i: nat, j: nat :: 0 <= a < b < |symbols| && ShockedAt(shocks, i, symbols[a]) && ShockedAt(shocks, j, symbols[b]) ==> i < j
  }

  lemma {:induction false} MissingInOrder(prices: Marks, shocks: seq<Shock>)
    requires OnePerSymbol(shocks)
    ensures InShockOrder(shocks, MissingFrom(prices, shocks))
  {
    if shocks != [] {
      var n := |shocks| - 1;
      var p, x := shocks[..n], shocks[n];
      MissingInOrder(prices, p);
      MissingRead(prices, p);
      MissingLast(prices, shocks);
      var s, m := MissingFrom(prices, p), MissingFrom(prices, shocks);
      hide MissingFrom;
      forall a, b, i: nat, j: nat | 0 <= a < b < |m| && ShockedAt(shocks, i, m[a]) && ShockedAt(shocks, j, m[b])
        ensures i < j
      {
        assert m[a] == s[a] && s[a] in s;
        if b < |s| {
          assert m[b] == s[b] && s[b] in s;
          assert ShockedAt(p, i, s[a]) && ShockedAt(p, j, s[b]) by {
            NotLast(shocks, i, s[a]);
            NotLast(shocks, j, s[b]);
          }
        } else {
          NotLast(shocks, i, s[a]);
          assert shocks[j].symbol == x.symbol;
        }
      }
    }
  }

  /** A symbol of an earlier shock is not that of the last one. */
  lemma NotLast(shocks: seq<Shock>, i: nat, symbol: string)
    requires OnePerSymbol(shocks) && ShockedAt(shocks, i, symbol) && exists x :: x in shocks[..|shocks| - 1] && x.symbol == symbol
    ensures i < |shocks| - 1
  {
    var x :| x in shocks[..|shocks| - 1] && x.symbol == symbol;
    var k :| 0 <= k < |shocks| - 1 && shocks[k] == x;
  }

  /** For valid shocks of a portfolio: the answer is Missing exactly when some shocked symbol has no mark or a zero one,
      with just these symbols in the order of the shocks. Otherwise every shocked mark is its base price times one plus
      the value, and every other mark, the positions and the rest are the base's. */
  ghost predicate Answers(base: Input, shocks: seq<Shock>, r: Outcome) {
    match r
    case Refused(_) => false
    case Missing(symbols) =>
      (exists x :: x in shocks && Unmarked(base.prices, x)) &&
      (forall s :: s in symbols <==> exists x :: x in shocks && Unmarked(base.prices, x) && x.symbol == s) &&
      InShockOrder(shocks, symbols)
    case Ready(input) =>
      (forall x :: x in shocks ==> !Unmarked(base.prices, x)) && input == base.(prices := input.prices) &&
      ShockedMarks(base.prices, shocks, input.prices)
  }

  ghost predicate ShockedMarks(before: Marks, shocks: seq<Shock>, after: Marks) {
    after.Keys == before.Keys &&
    (forall x :: x in shocks && x.symbol in before ==>
       after[x.symbol] == before[x.symbol].(price := before[x.symbol].price * (1.0 + x.value))) &&
    forall s :: s in before && !Named(shocks, s) ==> after[s] == before[s]
  }

  lemma ShockedMarksRead(prices: Marks, shocks: seq<Shock>)
    requires OnePerSymbol(shocks)
    ensures ShockedMarks(prices, shocks, ShockAll(prices, shocks))
  {
    hide ShockAll, ValueFor;
    ShockAllAt(prices, shocks, "");
    forall x | x in shocks && x.symbol in prices
      ensures ShockAll(prices, shocks)[x.symbol] == prices[x.symbol].(price := prices[x.symbol].price * (1.0 + x.value))
    {
      ShockAllAt(prices, shocks, x.symbol);
      ValueForMember(shocks, x);
    }
    forall s | s in prices && !Named(shocks, s)
      ensures ShockAll(prices, shocks)[s] == prices[s]
    {
      ShockAllAt(prices, shocks, s);
      NotNamed(shocks, s);
    }
  }

  lemma AnswerRead(base: Input, shocks: seq<Shock>, r: Outcome)
    requires OnePerSymbol(shocks)
    requires r == if MissingFrom(base.prices, shocks) != [] then Missing(MissingFrom(base.prices, shocks))
                  else Ready(base.(prices := ShockAll(base.prices, shocks)))
    ensures Answers(base, shocks, r)
  {
    hide MissingFrom, InShockOrder, ShockAll, ShockedMarks, Unmarked;
    MissingRead(base.prices, shocks);
    MissingInOrder(base.prices, shocks);
    ShockedMarksRead(base.prices, shocks);
  }

  // ----- what a scenario does to the totals -----

  predicate Counted(row: Position, prices: Marks) {
    Open(row) && Priced(prices, row.symbol)
  }

  /** Quantity times price times value, over the open priced positions. */
  function Effect(rows: seq<Position>, prices: Marks, shocks: seq<Shock>): real {
    if rows == [] then 0.0
    else Effect(rows[..|rows| - 1], prices, shocks) + EffectOn(rows[|rows| - 1], prices, shocks)
  }

  function EffectOn(row: Position, prices: Marks, shocks: seq<Shock>): real {
    if Counted(row, prices) then EffectAt(row, PriceOf(prices, row.symbol), ValueFor(shocks, row.symbol)) else 0.0
  }

  function EffectAt(row: Position, price: real, value: real): real {
    row.qty * price * value
  }

  function Cost(row: Position): real {
    row.avg * row.qty
  }

  /** The position loses its mark: it is shocked by minus one, which makes the mark zero. */
  predicate WipedOut(row: Position, prices: Marks, shocks: seq<Shock>) {
    Counted(row, prices) && ValueFor(shocks, row.symbol) == -1.0
  }

  /** The cost of the positions that lose their mark. */
  function WipedCost(rows: seq<Position>, prices: Marks, shocks: seq<Shock>): real {
    if rows == [] then 0.0
    else WipedCost(rows[..|rows| - 1], prices, shocks) + WipedCostOf(rows[|rows| - 1], prices, shocks)
  }

  function WipedCostOf(row: Position, prices: Marks, shocks: seq<Shock>): real {
    if WipedOut(row, prices, shocks) then Cost(row) else 0.0
  }

  function ValueOf(m: Marked): real {
    if m.hasPrice && m.row.qty != 0.0 then m.value else 0.0
  }

  function UnrealizedOf(m: Marked): real {
    if m.hasPrice && m.row.qty != 0.0 then m.unrealized else 0.0
  }

  function ValueAt(row: Position, price: real): real {
    price * row.qty
  }

  function UnrealizedAt(row: Position, price: real): real {
    (price - row.avg) * row.qty
  }

  lemma RowAt(row: Position, prices: Marks)
    ensures var m, p := MarkRow(row, prices), PriceOf(prices, row.symbol);
            ValueOf(m) == (if Counted(row, prices) then ValueAt(row, p) else 0.0) &&
            UnrealizedOf(m) == (if Counted(row, prices) then UnrealizedAt(row, p) else 0.0)
  {
    hide Priced, PriceOf;
  }

  lemma ShockedRowArithmetic(row: Position, p: real, v: real)
    ensures ValueAt(row, ShockedPrice(p, v)) - ValueAt(row, p) == EffectAt(row, p, v)
    ensures UnrealizedAt(row, ShockedPrice(p, v)) - UnrealizedAt(row, p) == EffectAt(row, p, v)
    ensures v == -1.0 ==> -ValueAt(row, p) == EffectAt(row, p, v) && -UnrealizedAt(row, p) == EffectAt(row, p, v) + Cost(row)
  {
    var q, a := row.qty, row.avg;
    assert (p * (1.0 + v)) * q == p * q + q * p * v;
    assert (p * (1.0 + v) - a) * q == (p * (1.0 + v)) * q - a * q;
    assert (p - a) * q == p * q - a * q;
  }

  /** A shocked symbol keeps a mark unless it is shocked by minus one. */
  lemma ShockedMark(prices: Marks, shocks: seq<Shock>, s: string)
    requires OnePerSymbol(shocks)
    ensures var v, shocked := ValueFor(shocks, s), ShockAll(prices, shocks);
            PriceOf(shocked, s) == ShockedPrice(PriceOf(prices, s), v) &&
            (Priced(shocked, s) <==> Priced(prices, s) && v != -1.0)
  {
    ShockAllAt(prices, shocks, s);
    var p, v := PriceOf(prices, s), ValueFor(shocks, s);
    if p != 0.0 {
      ShockedToZeroIff(p, v);
    } else {
      assert ShockedPrice(p, v) == 0.0;
    }
    hide ShockAll, ValueFor, ShockedPrice;
  }

  /** One row under a scenario. */
  lemma ShockedRow(row: Position, prices: Marks, shocks: seq<Shock>)
    requires OnePerSymbol(shocks)
    ensures var x, y := MarkRow(row, prices), MarkRow(row, ShockAll(prices, shocks));
            ValueOf(y) - ValueOf(x) == EffectOn(row, prices, shocks) &&
            UnrealizedOf(y) - UnrealizedOf(x) == EffectOn(row, prices, shocks) + WipedCostOf(row, prices, shocks)
  {
    hide ShockAll, ValueFor, ShockedPrice, MarkRow, ValueOf, UnrealizedOf, ValueAt, UnrealizedAt, EffectAt, Cost, Priced,
         PriceOf, OnePerSymbol;
    RowAt(row, prices);
    RowAt(row, ShockAll(prices, shocks));
    ShockedMark(prices, shocks, row.symbol);
    ShockedRowArithmetic(row, PriceOf(prices, row.symbol), ValueFor(shocks, row.symbol));
  }

  lemma SumUnfolds(rows: seq<Position>, prices: Marks)
    requires rows != []
    ensures var t, n := Sum(MarkAll(rows[..|rows| - 1], prices)), Sum(MarkAll(rows, prices));
            var m := MarkRow(rows[|rows| - 1], prices);
            n.value == t.value + ValueOf(m) && n.unrealized == t.unrealized + UnrealizedOf(m) &&
            n.realized == t.realized + rows[|rows| - 1].realized
  {
    hide MarkRow;
    var a := MarkAll(rows, prices);
    assert a[..|a| - 1] == MarkAll(rows[..|rows| - 1], prices);
    MarkKeepsRow(rows[|rows| - 1], prices);
  }

  lemma MarkKeepsRow(row: Position, prices: Marks)
    ensures MarkRow(row, prices).row == row
  {
  }

  /** Scenario algebra. Under any shocks the market value changes by quantity times price times value over
      the shocked open positions, and realized profit does not change. Unrealized profit changes by the same
      amount plus the cost of the positions whose mark becomes zero, since these drop out of the total. */
  lemma {:induction false} ScenarioChange(rows: seq<Position>, prices: Marks, shocks: seq<Shock>)
    requires OnePerSymbol(shocks)
    ensures var x, y := Sum(MarkAll(rows, prices)), Sum(MarkAll(rows, ShockAll(prices, shocks)));
            y.value - x.value == Effect(rows, prices, shocks) && y.realized == x.realized &&
            y.unrealized - x.unrealized == Effect(rows, prices, shocks) + WipedCost(rows, prices, shocks)
  {
    hide Sum, MarkAll, MarkRow, ShockAll, EffectOn, WipedCostOf, ValueOf, UnrealizedOf;
    if rows == [] {
      NothingMarked(prices);
      NothingMarked(ShockAll(prices, shocks));
    } else {
      var p, row := rows[..|rows| - 1], rows[|rows| - 1];
      ScenarioChange(p, prices, shocks);
      SumUnfolds(rows, prices);
      SumUnfolds(rows, ShockAll(prices, shocks));
      ShockedRow(row, prices, shocks);
    }
  }

  lemma NothingMarked(prices: Marks)
    ensures Sum(MarkAll([], prices)) == NO_TOTALS
  {
    assert MarkAll([], prices) == [];
  }

  lemma WipedRow(row: Position, prices: Marks, shocks: seq<Shock>)
    requires row.qty >= 0.0 && row.avg >= 0.0
    ensures WipedCostOf(row, prices, shocks) >= 0.0
    ensures WipedCostOf(row, prices, shocks) == 0.0 <==> (WipedOut(row, prices, shocks) ==> row.avg == 0.0)
  {
    hide ValueFor, Priced;
    if WipedOut(row, prices, shocks) {
      MulPositive(row.avg, row.qty);
    }
  }

  /** Every position that loses its mark has cost nothing. */
  predicate NothingLost(rows: seq<Position>, prices: Marks, shocks: seq<Shock>) {
    forall p :: p in rows && WipedOut(p, prices, shocks) ==> p.avg == 0.0
  }

  lemma NothingLostSnoc(rows: seq<Position>, row: Position, prices: Marks, shocks: seq<Shock>)
    ensures NothingLost(rows + [row], prices, shocks) <==>
            NothingLost(rows, prices, shocks) && (WipedOut(row, prices, shocks) ==> row.avg == 0.0)
  {
    hide WipedOut;
    assert row in rows + [row];
  }

  /** For stored rows, which are never negative, both changes agree exactly when every open position shocked
      by minus one has cost nothing. */
  lemma {:induction false} WipedCostZeroIff(rows: seq<Position>, prices: Marks, shocks: seq<Shock>)
    requires forall p :: p in rows ==> p.qty >= 0.0 && p.avg >= 0.0
    ensures WipedCost(rows, prices, shocks) >= 0.0
    ensures WipedCost(rows, prices, shocks) == 0.0 <==> NothingLost(rows, prices, shocks)
  {
    hide WipedOut, WipedCostOf;
    if rows != [] {
      hide NothingLost;
      var q, row := rows[..|rows| - 1], rows[|rows| - 1];
      assert rows == q + [row] && row in rows;
      WipedCostZeroIff(q, prices, shocks);
      WipedRow(row, prices, shocks);
      NothingLostSnoc(q, row, prices, shocks);
    }
  }

  /** The same for the totals of the two views, whatever order their positions came in. */
  lemma ScenarioOnViews(v: View, w: View, rows: seq<Position>, prices: Marks, shocks: seq<Shock>, trade: Option<ApplyMeta>)
    requires !Duplicated(rows) && OnePerSymbol(shocks)
    requires IsView(v, rows, prices, trade) && IsView(w, rows, ShockAll(prices, shocks), trade)
    ensures w.totals.value - v.totals.value == Effect(rows, prices, shocks) && w.totals.realized == v.totals.realized
    ensures w.totals.unrealized - v.totals.unrealized == Effect(rows, prices, shocks) <==> WipedCost(rows, prices, shocks) == 0.0
  {
    hide IsView, Sum, MarkAll, ShockAll, Effect, WipedCost;
    TotalsOfPositions(v, rows, prices, trade);
    TotalsOfPositions(w, rows, ShockAll(prices, shocks), trade);
    ScenarioChange(rows, prices, shocks);
  }

  const HELD := Position("A", 10.0, 5.0, 0.0)
  const MARKED: Marks := map["A" := PriceMark(6.0, Cursor(1, 1), 1)]
  const WIPE := Shock("A", "PCT", -1.0)

  /** Ten shares bought at five and marked at six: wiping the price out takes sixty from the market value and only
      the ten of unrealized profit, where a loss of sixty is expected. */
  lemma WipedExample()
    ensures Sum(MarkAll([HELD], MARKED)) == Totals(60.0, 10.0, 0.0)
    ensures Sum(MarkAll([HELD], ShockAll(MARKED, [WIPE]))) == Totals(0.0, 0.0, 0.0)
  {
    var after := ShockAll(MARKED, [WIPE]);
    assert after == ShockOne(MARKED, WIPE) by {
      assert [WIPE][..0] == [];
      assert ShockAll(MARKED, []) == MARKED;
    }
    assert ShockedPrice(6.0, -1.0) == 0.0;
    assert after == map["A" := PriceMark(0.0, Cursor(1, 1), 1)];
    assert MarkAll([HELD], MARKED) == [MarkRow(HELD, MARKED)];
    assert MarkAll([HELD], after) == [MarkRow(HELD, after)];
    OneRow(MarkRow(HELD, MARKED));
    OneRow(MarkRow(HELD, after));
  }

  lemma OneRow(m: Marked)
    ensures Sum([m]) == Add(NO_TOTALS, m)
  {
    assert [m][..0] == [];
  }
}
