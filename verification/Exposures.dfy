/** What a risk snapshot says, read off its input: the exposures, their total and the figures made of them. */
module Exposures {
  import opened Decimals
  import opened Positions
  import opened View
  import opened Risk
  import opened Lexicographic

  // ----- exposures -----

  /** The holdings that have a price, in order. */
  function PricedOf(holdings: seq<Holding>, prices: map<string, real>): seq<Holding> {
    if holdings == [] then []
    else
      var h := holdings[|holdings| - 1];
      PricedOf(holdings[..|holdings| - 1], prices) + if h.symbol in prices then [h] else []
  }

  lemma {:induction false} PricedMembers(holdings: seq<Holding>, prices: map<string, real>)
    ensures forall h :: h in PricedOf(holdings, prices) <==> h in holdings && h.symbol in prices
  {
    if holdings != [] {
      var p, h := holdings[..|holdings| - 1], holdings[|holdings| - 1];
      assert holdings == p + [h];
      PricedMembers(p, prices);
    }
  }

  /** A line belongs to a holding: the symbol and its volatility, and quantity times price or its negative, whichever is
      not negative. */
  predicate LineOf(r: SymbolRisk, h: Holding, prices: map<string, real>, sigmas: map<string, real>) {
    h.symbol in prices && h.symbol in sigmas && r.symbol == h.symbol && r.sigma == sigmas[h.symbol] && r.weight == 0.0 &&
    r.exposure >= 0.0 && (r.exposure == h.qty * prices[h.symbol] || r.exposure == -(h.qty * prices[h.symbol]))
  }

  predicate LinesOf(risks: seq<SymbolRisk>, priced: seq<Holding>, prices: map<string, real>, sigmas: map<string, real>) {
    |risks| == |priced| && forall i :: 0 <= i < |risks| ==> LineOf(risks[i], priced[i], prices, sigmas)
  }

  /** One line per priced holding, in order, the total over them, and the symbols without a price; and it fails exactly
      when a priced symbol has no volatility. */
  lemma {:induction false} ExposuresRead(holdings: seq<Holding>, prices: map<string, real>, sigmas: map<string, real>)
    ensures forall h :: h in PricedOf(holdings, prices) <==> h in holdings && h.symbol in prices
    ensures match Expose(holdings, prices, sigmas)
            case MissingSigma(s) => s in prices && s !in sigmas && exists h :: h in holdings && h.symbol == s
            case Exposed(risks, unpriced, total) =>
              LinesOf(risks, PricedOf(holdings, prices), prices, sigmas) && total == Total(risks) &&
              (forall h :: h in holdings && h.symbol in prices ==> h.symbol in sigmas) &&
              forall s :: s in unpriced <==> s !in prices && exists h :: h in holdings && h.symbol == s
  {
    hide ExposureOf, Total, LinesOf;
    ExposeFacts(holdings, prices, sigmas);
    PricedMembers(holdings, prices);
    if holdings == [] {
      assert LinesOf([], [], prices, sigmas) by {
        NoLines(prices, sigmas);
      }
    } else {
      var p, h := holdings[..|holdings| - 1], holdings[|holdings| - 1];
      assert holdings == p + [h] && h in holdings;
      ExposuresRead(p, prices, sigmas);
      var x := Expose(p, prices, sigmas);
      if x.Exposed? {
        if h.symbol !in prices {
          assert PricedOf(p, prices) + [] == PricedOf(p, prices);
        } else if h.symbol in sigmas {
          LinesSnoc(x.risks, PricedOf(p, prices), h, prices, sigmas);
        }
      }
    }
  }

  lemma NoLines(prices: map<string, real>, sigmas: map<string, real>)
    ensures LinesOf([], [], prices, sigmas)
  {
  }

  lemma LinesSnoc(risks: seq<SymbolRisk>, priced: seq<Holding>, h: Holding, prices: map<string, real>, sigmas: map<string, real>)
    requires LinesOf(risks, priced, prices, sigmas) && h.symbol in prices && h.symbol in sigmas
    ensures LinesOf(risks + [SymbolRisk(h.symbol, ExposureOf(h.qty, prices[h.symbol]), 0.0, sigmas[h.symbol])], priced + [h], prices, sigmas)
  {
    ExposureRead(h.qty, prices[h.symbol]);
    hide ExposureOf;
  }

  lemma ExposureRead(qty: real, price: real)
    ensures var e := ExposureOf(qty, price); e >= 0.0 && (e == qty * price || e == -(qty * price))
  {
  }

  // ----- the total is the market value -----

  /** The risk input of stored positions: the open ones, and the marks that are not zero. */
  function HoldingsOf(rows: seq<Position>): seq<Holding> {
    if rows == [] then []
    else
      var r := rows[|rows| - 1];
      HoldingsOf(rows[..|rows| - 1]) + if r.qty != 0.0 then [Holding(r.symbol, r.qty)] else []
  }

  function PricesOf(marks: Marks): map<string, real> {
    map s | s in marks && marks[s].price != 0.0 :: marks[s].price
  }

  /** Stored positions are long and marks are not negative: the total exposure is the market value of the view. */
  lemma {:induction false} TotalIsMarketValue(rows: seq<Position>, marks: Marks, sigmas: map<string, real>)
    requires forall r :: r in rows ==> r.qty >= 0.0
    requires forall s :: s in marks ==> marks[s].price >= 0.0
    ensures var x := Expose(HoldingsOf(rows), PricesOf(marks), sigmas);
            x.Exposed? ==> x.total == Sum(MarkAll(rows, marks)).value
  {
    hide Sum, MarkAll, ExposureOf, Expose, PricesOf, HoldingsOf;
    if rows == [] {
      TotalsRead([], Position("", 0.0, 0.0, 0.0), marks);
      NothingHeld(PricesOf(marks), sigmas);
    } else {
      var p, r := rows[..|rows| - 1], rows[|rows| - 1];
      assert rows == p + [r] && r in rows;
      TotalIsMarketValue(p, marks, sigmas);
      TotalsRead(p, r, marks);
      OneMoreRow(p, r, marks, sigmas);
    }
  }

  lemma NothingHeld(prices: map<string, real>, sigmas: map<string, real>)
    ensures HoldingsOf([]) == [] && Expose([], prices, sigmas) == Exposed([], [], 0.0)
  {
  }

  lemma OneMoreRow(p: seq<Position>, r: Position, marks: Marks, sigmas: map<string, real>)
    requires r.qty >= 0.0 && forall s :: s in marks ==> marks[s].price >= 0.0
    ensures var x, y := Expose(HoldingsOf(p), PricesOf(marks), sigmas), Expose(HoldingsOf(p + [r]), PricesOf(marks), sigmas);
            y.Exposed? ==>
              x.Exposed? && y.total == x.total + if r.qty != 0.0 && r.symbol in marks && marks[r.symbol].price != 0.0
                                                 then r.qty * marks[r.symbol].price else 0.0
  {
    hide Expose;
    var hs, ps := HoldingsOf(p), PricesOf(marks);
    assert (p + [r])[..|p|] == p;
    if r.qty != 0.0 {
      assert HoldingsOf(p + [r]) == hs + [Holding(r.symbol, r.qty)];
      OneMoreHolding(hs, Holding(r.symbol, r.qty), ps, sigmas);
      if r.symbol in ps {
        LongExposure(r.qty, marks[r.symbol].price);
      }
    } else {
      assert HoldingsOf(p + [r]) == hs;
    }
    hide ExposureOf;
  }

  lemma OneMoreHolding(hs: seq<Holding>, h: Holding, prices: map<string, real>, sigmas: map<string, real>)
    ensures var x, y := Expose(hs, prices, sigmas), Expose(hs + [h], prices, sigmas);
            y.Exposed? ==>
              x.Exposed? && y.total == x.total + if h.symbol in prices then ExposureOf(h.qty, prices[h.symbol]) else 0.0
  {
    hide ExposureOf;
    assert (hs + [h])[..|hs|] == hs;
  }

  lemma LongExposure(qty: real, price: real)
    requires qty >= 0.0 && price >= 0.0
    ensures ExposureOf(qty, price) == qty * price
  {
    assert qty * price >= 0.0;
  }

  // ----- the figures -----

  /** A share of the total, to half a unit of the sixteenth decimal. */
  predicate IsShare(weight: real, exposure: real, total: real) {
    if total > 0.0 then Abs(weight * total - exposure) <= total * 0.00000000000000005 else weight == 0.0
  }

  lemma ShareRead(exposure: real, total: real)
    requires total > 0.0
    ensures IsShare(Div16(exposure, total), exposure, total)
  {
    hide Div16, Abs;
    Div16Error(exposure, total);
    ShareError(Div16(exposure, total), exposure, total);
  }

  lemma ShareError(weight: real, exposure: real, total: real)
    requires total > 0.0 && Abs(weight - exposure / total) <= 0.00000000000000005
    ensures Abs(weight * total - exposure) <= total * 0.00000000000000005
  {
    var q := exposure / total;
    assert q * total == exposure;
    ShareScaled(weight - q, total);
    ShareSplit(weight, q, total);
  }

  lemma ShareSplit(weight: real, q: real, total: real)
    ensures (weight - q) * total == weight * total - q * total
  {
  }

  lemma ShareScaled(d: real, total: real)
    requires total > 0.0 && Abs(d) <= 0.00000000000000005
    ensures Abs(d * total) <= total * 0.00000000000000005
  {
    MulBound(total, d, 0.00000000000000005);
    assert total * d == d * total;
  }

  /** Sums are taken one by one. */
  lemma SumsRead(xs: seq<real>, x: real)
    ensures SumOfSquares([]) == 0.0 && SumOfSquares(xs + [x]) == SumOfSquares(xs) + x * x
  {
    assert (xs + [x])[..|xs|] == xs;
  }

  /** What each holding contributes to the index and to the variance. */
  lemma TermsRead(risks: seq<SymbolRisk>)
    ensures |Weights(risks)| == |Contributions(risks)| == |risks|
    ensures forall i :: 0 <= i < |risks| ==>
              Weights(risks)[i] == risks[i].weight && Contributions(risks)[i] == risks[i].weight * risks[i].sigma
  {
  }

  /** Largest weight first; equal weights by symbol. */
  predicate InRankOrder(a: SymbolRisk, b: SymbolRisk) {
    a.weight > b.weight || (a.weight == b.weight && Compare(Codes(a.symbol), Codes(b.symbol)) <= 0)
  }

  lemma RankRead(a: SymbolRisk, b: SymbolRisk)
    ensures Precedes(a, b) ==> InRankOrder(a, b)
  {
    CompareEqual(Codes(a.symbol), Codes(b.symbol));
    hide Compare, Codes;
  }

  predicate InSymbolOrder(risks: seq<SymbolRisk>) {
    forall i, j :: 0 <= i < j < |risks| ==> Compare(Codes(risks[i].symbol), Codes(risks[j].symbol)) <= 0
  }

  lemma NotAfterRead(a: string, b: string)
    ensures NotAfter(a, b) ==> Compare(Codes(a), Codes(b)) <= 0
  {
    CompareEqual(Codes(a), Codes(b));
    hide Compare, Codes;
  }

  /** The lines are those of the exposures, each with its share. */
  predicate SharesOf(arranged: seq<SymbolRisk>, risks: seq<SymbolRisk>, total: real) {
    |arranged| == |risks| &&
    forall r :: r in arranged ==> IsShare(r.weight, r.exposure, total) && r.(weight := 0.0) in risks
  }

  lemma ArrangedRead(arranged: seq<SymbolRisk>, risks: seq<SymbolRisk>, total: real)
    requires Arranged(arranged, risks, total) && forall r :: r in risks ==> r.weight == 0.0
    ensures InSymbolOrder(arranged) && SharesOf(arranged, risks, total)
  {
    hide Total, NotAfter, Compare, Codes, WithWeight, Weighted, IsShare;
    var sorted: seq<SymbolRisk> :| BySymbol(sorted) && multiset(sorted) == multiset(risks) && arranged == Weighted(sorted, total);
    assert |multiset(sorted)| == |multiset(risks)| && |multiset(sorted)| == |sorted|;
    assert |arranged| == |sorted| by {
      if sorted != [] {
        WeightedAt(sorted, total, 0);
      } else {
        WeightedNone(total);
      }
    }
    forall i | 0 <= i < |arranged|
      ensures arranged[i].symbol == sorted[i].symbol
      ensures IsShare(arranged[i].weight, arranged[i].exposure, total) && arranged[i].(weight := 0.0) in risks
    {
      assert sorted[i] in multiset(sorted);
      assert sorted[i] in risks;
      ShareOf(sorted[i], total);
      WeightedAt(sorted, total, i);
    }
    forall i, j | 0 <= i < j < |arranged|
      ensures Compare(Codes(arranged[i].symbol), Codes(arranged[j].symbol)) <= 0
    {
      NotAfterRead(sorted[i].symbol, sorted[j].symbol);
    }
  }

  lemma WeightedAt(risks: seq<SymbolRisk>, total: real, i: nat)
    requires i < |risks|
    ensures |Weighted(risks, total)| == |risks|
    ensures Weighted(risks, total)[i] == if total > 0.0 then WithWeight(risks[i], total) else risks[i]
  {
  }

  lemma WeightedNone(total: real)
    ensures Weighted([], total) == []
  {
  }

  lemma ShareOf(r: SymbolRisk, total: real)
    requires r.weight == 0.0
    ensures total > 0.0 ==> var w := WithWeight(r, total); IsShare(w.weight, w.exposure, total) && w.(weight := 0.0) == r && w.symbol == r.symbol
    ensures total <= 0.0 ==> IsShare(r.weight, r.exposure, total) && r.(weight := 0.0) == r
  {
    if total > 0.0 {
      ShareRead(r.exposure, total);
    }
    hide Div16;
  }

  predicate InFront(top: seq<SymbolRisk>, rest: seq<SymbolRisk>) {
    forall a, b :: a in top && b in rest ==> InRankOrder(a, b)
  }

  /** The largest holdings, in rank order. */
  ghost predicate TopOf(top: seq<SymbolRisk>, risks: seq<SymbolRisk>) {
    (forall i, j :: 0 <= i < j < |top| ==> InRankOrder(top[i], top[j])) &&
    exists rest :: multiset(top) + multiset(rest) == multiset(risks) && InFront(top, rest)
  }

  lemma TopRead(top: seq<SymbolRisk>, risks: seq<SymbolRisk>)
    requires Ranked(top) && Largest(top, risks)
    ensures TopOf(top, risks)
  {
    hide Precedes, InRankOrder;
    forall a, b
      ensures Precedes(a, b) ==> InRankOrder(a, b)
    {
      RankRead(a, b);
    }
    var rest: seq<SymbolRisk> :| multiset(top) + multiset(rest) == multiset(risks) &&
      forall a: SymbolRisk, b: SymbolRisk :: a in top && b in rest ==> Precedes(a, b);
    assert InFront(top, rest);
  }

  lemma VaRRead(total: real, sigma: real)
    ensures 1000.0 * VaR95(total, sigma) == 1645.0 * (total * sigma)
  {
  }

  lemma SquareRead(x: real)
    ensures Square(x) == x * x
  {
  }

  /** A snapshot, read off: the lines by symbol with their shares, deviation and value at risk, and the largest holdings
      in front of the others, five by default and at most fifty. */
  lemma SnapshotRead(holdings: seq<Holding>, prices: map<string, real>, sigmas: map<string, real>, topN: int, s: Snapshot)
    requires var x := Expose(holdings, prices, sigmas);
             x.Exposed? && Describes(s, x.risks, x.unpriced, x.total, topN)
    ensures var x := Expose(holdings, prices, sigmas);
            s.total == x.total && InSymbolOrder(s.risks) && SharesOf(s.risks, x.risks, x.total)
    ensures s.sigma >= 0.0 && s.sigma * s.sigma == SumOfSquares(Contributions(s.risks)) && s.hhi == SumOfSquares(Weights(s.risks))
    ensures 1000.0 * s.var95 == 1645.0 * (s.total * s.sigma)
    ensures var n := if topN <= 0 then 5 else if topN > 50 then 50 else topN;
            TopOf(s.top, s.risks) && |s.top| == if n < |s.risks| then n else |s.risks|
  {
    hide Expose, Arranged, Largest, Ranked, SumOfSquares, Contributions, Weights, InStringOrder, VaR95, InSymbolOrder, SharesOf, TopOf,
         Square;
    var x := Expose(holdings, prices, sigmas);
    ExposedUnweighted(holdings, prices, sigmas);
    ArrangedRead(s.risks, x.risks, x.total);
    TopRead(s.top, s.risks);
    VaRRead(x.total, s.sigma);
    SquareRead(s.sigma);
  }

  lemma ExposedUnweighted(holdings: seq<Holding>, prices: map<string, real>, sigmas: map<string, real>)
    requires Expose(holdings, prices, sigmas).Exposed?
    ensures forall r :: r in Expose(holdings, prices, sigmas).risks ==> r.weight == 0.0
  {
    hide Expose, LinesOf;
    ExposuresRead(holdings, prices, sigmas);
    LinesUnweighted(Expose(holdings, prices, sigmas).risks, PricedOf(holdings, prices), prices, sigmas);
  }

  lemma LinesUnweighted(risks: seq<SymbolRisk>, priced: seq<Holding>, prices: map<string, real>, sigmas: map<string, real>)
    requires LinesOf(risks, priced, prices, sigmas)
    ensures forall r :: r in risks ==> r.weight == 0.0
  {
    forall r | r in risks
      ensures r.weight == 0.0
    {
      var i :| 0 <= i < |risks| && risks[i] == r;
      assert LineOf(risks[i], priced[i], prices, sigmas);
    }
  }
}
