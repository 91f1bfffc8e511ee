/** Exposure, weights, concentration and value at risk of a portfolio.

    The square root is not computed: the standard deviation is any non-negative real whose square is the
    variance. */
module Risk {
  import opened Decimals
  import opened Positions
  import opened Lexicographic

  datatype Holding = Holding(symbol: string, qty: real)

  datatype SymbolRisk = SymbolRisk(symbol: string, exposure: real, weight: real, sigma: real)

  // ----- exposures -----

  /** The exposures of the priced holdings in order, all with weight zero, and the unpriced symbols. */
  datatype Exposed = Exposed(risks: seq<SymbolRisk>, unpriced: seq<string>, total: real) | MissingSigma(symbol: string)

  function ExposureOf(qty: real, price: real): real {
    Abs(qty * price)
  }

  function Expose(holdings: seq<Holding>, prices: map<string, real>, sigmas: map<string, real>): Exposed {
    if holdings == [] then Exposed([], [], 0.0)
    else
      var h := holdings[|holdings| - 1];
      match Expose(holdings[..|holdings| - 1], prices, sigmas)
      case MissingSigma(s) => MissingSigma(s)
      case Exposed(risks, unpriced, total) =>
        if h.symbol !in prices then Exposed(risks, unpriced + [h.symbol], total)
        else if h.symbol !in sigmas then MissingSigma(h.symbol)
        else
          var e := ExposureOf(h.qty, prices[h.symbol]);
          Exposed(risks + [SymbolRisk(h.symbol, e, 0.0, sigmas[h.symbol])], unpriced, total + e)
  }

  function Total(risks: seq<SymbolRisk>): real {
    if risks == [] then 0.0 else Total(risks[..|risks| - 1]) + risks[|risks| - 1].exposure
  }

  predicate NonNegative(risks: seq<SymbolRisk>) {
    forall i :: 0 <= i < |risks| ==> risks[i].exposure >= 0.0 && risks[i].weight >= 0.0
  }

  lemma TotalSnoc(risks: seq<SymbolRisk>, r: SymbolRisk)
    ensures Total(risks + [r]) == Total(risks) + r.exposure
  {
    assert (risks + [r])[..|risks|] == risks;
  }

  /** The total is the sum of the exposures, and exposures are never negative, even for short or negative
      marks; a holding without a price is listed and a priced holding without a volatility fails. */
  lemma {:induction false} ExposeFacts(holdings: seq<Holding>, prices: map<string, real>, sigmas: map<string, real>)
    ensures match Expose(holdings, prices, sigmas)
            case MissingSigma(s) => s in prices && s !in sigmas
            case Exposed(risks, unpriced, total) =>
              NonNegative(risks) && total == Total(risks) && |risks| + |unpriced| == |holdings| &&
              (forall h :: h in holdings && h.symbol in prices ==> h.symbol in sigmas) &&
              forall s :: s in unpriced ==> s !in prices
  {
    hide ExposureOf;
    if holdings != [] {
      var p, h := holdings[..|holdings| - 1], holdings[|holdings| - 1];
      assert holdings == p + [h];
      ExposeFacts(p, prices, sigmas);
      var x := Expose(p, prices, sigmas);
      if x.Exposed? && h.symbol in prices && h.symbol in sigmas {
        var e := ExposureOf(h.qty, prices[h.symbol]);
        ExposureNonNegative(h.qty, prices[h.symbol]);
        TotalSnoc(x.risks, SymbolRisk(h.symbol, e, 0.0, sigmas[h.symbol]));
      }
      hide Total;
    }
  }

  lemma ExposureNonNegative(qty: real, price: real)
    ensures ExposureOf(qty, price) >= 0.0
  {
  }

  method BuildExposures(holdings: seq<Holding>, prices: map<string, real>, sigmas: map<string, real>) returns (r: Exposed)
    ensures r == Expose(holdings, prices, sigmas)
  {
    hide ExposureOf;
    var risks: seq<SymbolRisk>, unpriced: seq<string>, total := [], [], 0.0;
    var i := 0;
    while i < |holdings|
      invariant 0 <= i <= |holdings|
      invariant Expose(holdings[..i], prices, sigmas) == Exposed(risks, unpriced, total)
    {
      var h := holdings[i];
      assert holdings[..i + 1][..i] == holdings[..i];
      if h.symbol !in prices {
        unpriced := unpriced + [h.symbol];
      } else if h.symbol !in sigmas {
        SigmaStaysMissing(holdings, i + 1, prices, sigmas);
        return MissingSigma(h.symbol);
      } else {
        var e := ExposureOf(h.qty, prices[h.symbol]);
        total := total + e;
        risks := risks + [SymbolRisk(h.symbol, e, 0.0, sigmas[h.symbol])];
      }
      i := i + 1;
    }
    assert holdings[..i] == holdings;
    r := Exposed(risks, unpriced, total);
  }

  lemma {:induction false} SigmaStaysMissing(holdings: seq<Holding>, i: nat, prices: map<string, real>, sigmas: map<string, real>)
    requires i <= |holdings| && Expose(holdings[..i], prices, sigmas).MissingSigma?
    ensures Expose(holdings, prices, sigmas) == Expose(holdings[..i], prices, sigmas)
  {
    hide ExposureOf;
    if i == |holdings| {
      assert holdings[..i] == holdings;
    } else {
      assert holdings[..|holdings| - 1][..i] == holdings[..i];
      SigmaStaysMissing(holdings[..|holdings| - 1], i, prices, sigmas);
    }
  }

  // ----- weights -----

  function WithWeight(r: SymbolRisk, total: real): SymbolRisk
    requires total > 0.0
  {
    r.(weight := Div16(r.exposure, total))
  }

  function Weighted(risks: seq<SymbolRisk>, total: real): seq<SymbolRisk> {
    if total > 0.0 then seq(|risks|, i requires 0 <= i < |risks| => WithWeight(risks[i], total)) else risks
  }

  /** Weights are assigned in place, when there is a positive total. */
  method AssignWeights(risks: array<SymbolRisk>, total: real)
    modifies risks
    ensures risks[..] == Weighted(old(risks[..]), total)
  {
    hide WithWeight;
    if total > 0.0 {
      var i := 0;
      while i < risks.Length
        invariant 0 <= i <= risks.Length
        invariant forall k :: 0 <= k < i ==> risks[k] == WithWeight(old(risks[k]), total)
        invariant forall k :: i <= k < risks.Length ==> risks[k] == old(risks[k])
      {
        risks[i] := WithWeight(risks[i], total);
        i := i + 1;
      }
    }
  }

  function WeightSum(risks: seq<SymbolRisk>): real {
    if risks == [] then 0.0 else WeightSum(risks[..|risks| - 1]) + risks[|risks| - 1].weight
  }

  lemma ShareSnoc(a: real, b: real, t: real)
    requires t > 0.0
    ensures (a + b) / t == a / t + b / t
  {
    var x, y := a / t, b / t;
    assert (x + y) * t == a + b;
  }

  lemma {:induction false} WeightSumOfShares(risks: seq<SymbolRisk>, total: real)
    requires total > 0.0
    ensures Abs(WeightSum(Weighted(risks, total)) - Total(risks) / total) <= HalfUlps16(|risks| as real)
  {
    if risks == [] {
      assert Weighted(risks, total) == [];
    } else {
      hide Div16;
      var p, r := risks[..|risks| - 1], risks[|risks| - 1];
      var w := Weighted(risks, total);
      assert w[..|w| - 1] == Weighted(p, total) && w[|w| - 1].weight == Div16(r.exposure, total);
      hide Weighted;
      WeightSumOfShares(p, total);
      Div16Error(r.exposure, total);
      ShareSnoc(Total(p), r.exposure, total);
    }
  }

  /** The weights of n priced holdings sum to one, within n half units in the sixteenth decimal. */
  lemma WeightsSumToOne(risks: seq<SymbolRisk>)
    requires Total(risks) > 0.0
    ensures Abs(WeightSum(Weighted(risks, Total(risks))) - 1.0) <= HalfUlps16(|risks| as real)
  {
    hide Total, Weighted, WeightSum, HalfUlps16;
    WeightSumOfShares(risks, Total(risks));
    SelfShare(Total(risks));
  }

  lemma SelfShare(t: real)
    requires t > 0.0
    ensures t / t == 1.0
  {
  }

  lemma WeightsNonNegative(risks: seq<SymbolRisk>, total: real)
    requires NonNegative(risks)
    ensures NonNegative(Weighted(risks, total))
  {
    hide Div16;
    var w := Weighted(risks, total);
    forall i | 0 <= i < |w|
      ensures w[i].exposure >= 0.0 && w[i].weight >= 0.0
    {
      if total > 0.0 {
        QuotientNonNegative(risks[i].exposure, total);
      }
    }
  }

  // ----- sums of squares -----

  function SumOf(xs: seq<real>): real {
    if xs == [] then 0.0 else SumOf(xs[..|xs| - 1]) + xs[|xs| - 1]
  }

  function SumOfSquares(xs: seq<real>): real {
    if xs == [] then 0.0 else SumOfSquares(xs[..|xs| - 1]) + Square(xs[|xs| - 1])
  }

  function Square(x: real): (r: real)
    ensures r >= 0.0
  {
    x * x
  }

  lemma SquareOfSum(s: real, x: real)
    requires s >= 0.0 && x >= 0.0
    ensures Square(s) + Square(x) <= Square(s + x)
  {
    assert s * x >= 0.0;
    assert (s + x) * (s + x) == s * s + x * x + 2.0 * (s * x);
  }

  /** For non-negative numbers the sum of squares is at most the square of the sum. */
  lemma {:induction false} SquaresBelowSquare(xs: seq<real>)
    requires forall i :: 0 <= i < |xs| ==> xs[i] >= 0.0
    ensures SumOf(xs) >= 0.0 && SumOfSquares(xs) <= Square(SumOf(xs))
  {
    hide Square;
    if xs == [] {
      assert Square(0.0) >= 0.0;
    } else {
      var p := xs[..|xs| - 1];
      SquaresBelowSquare(p);
      SquareOfSum(SumOf(p), xs[|xs| - 1]);
    }
  }

  /** One more number in the inequality of Cauchy and Schwarz. */
  lemma OneMoreSquare(s: real, h: real, n: real, x: real)
    requires n > 0.0 && Square(s) <= n * h
    ensures Square(s + x) <= (n + 1.0) * (h + Square(x))
  {
    var d := s - n * x;
    assert d * d == s * s - 2.0 * (n * (s * x)) + n * (n * (x * x));
    assert n * (2.0 * (s * x)) <= n * (h + n * (x * x));
    MulCancel(2.0 * (s * x), h + n * (x * x), n);
    assert (s + x) * (s + x) == s * s + 2.0 * (s * x) + x * x;
    assert (n + 1.0) * (h + x * x) == n * h + h + n * (x * x) + x * x;
  }

  /** Any numbers: the square of the sum of n of them is at most n times the sum of squares. */
  lemma {:induction false} SquareBelowSquares(xs: seq<real>)
    ensures Square(SumOf(xs)) <= (|xs| as real) * SumOfSquares(xs)
  {
    hide Square;
    if xs == [] {
      ZeroSquare();
    } else if |xs| == 1 {
      assert xs == [xs[0]] && |xs| as real == 1.0;
      SumOfOne(xs[0]);
    } else {
      var p := xs[..|xs| - 1];
      SquareBelowSquares(p);
      OneMoreSquare(SumOf(p), SumOfSquares(p), |p| as real, xs[|xs| - 1]);
    }
  }

  lemma SumOfOne(x: real)
    ensures SumOf([x]) == x && SumOfSquares([x]) == Square(x)
  {
    hide Square;
    assert [x][..0] == [];
    assert SumOf([]) == 0.0 && SumOfSquares([]) == 0.0;
  }

  lemma ZeroSquare()
    ensures Square(0.0) == 0.0
  {
  }

  // ----- concentration and portfolio risk -----

  function Weights(risks: seq<SymbolRisk>): seq<real> {
    seq(|risks|, i requires 0 <= i < |risks| => risks[i].weight)
  }

  /** Weight times volatility. */
  function Contributions(risks: seq<SymbolRisk>): seq<real> {
    seq(|risks|, i requires 0 <= i < |risks| => Contribution(risks[i]))
  }

  function Contribution(r: SymbolRisk): real {
    r.weight * r.sigma
  }

  /** The Herfindahl-Hirschman index. */
  method Hhi(risks: seq<SymbolRisk>) returns (acc: real)
    ensures acc == SumOfSquares(Weights(risks))
  {
    hide Square;
    acc := 0.0;
    var i := 0;
    assert Weights(risks[..0]) == [];
    while i < |risks|
      invariant 0 <= i <= |risks| && acc == SumOfSquares(Weights(risks[..i]))
    {
      assert Weights(risks[..i + 1])[..i] == Weights(risks[..i]);
      acc := acc + Square(risks[i].weight);
      i := i + 1;
    }
    assert risks[..i] == risks;
  }

  /** The variance of uncorrelated holdings; never negative. */
  method Variance(risks: seq<SymbolRisk>) returns (sum: real)
    ensures sum == SumOfSquares(Contributions(risks)) && sum >= 0.0
  {
    hide Square, Contribution;
    sum := 0.0;
    var i := 0;
    assert Contributions(risks[..0]) == [];
    while i < |risks|
      invariant 0 <= i <= |risks| && sum == SumOfSquares(Contributions(risks[..i])) && sum >= 0.0
    {
      assert Contributions(risks[..i + 1])[..i] == Contributions(risks[..i]);
      sum := sum + Square(Contribution(risks[i]));
      i := i + 1;
    }
    assert risks[..i] == risks;
  }

  /** With weight sum S over n holdings the index lies between S squared over n and S squared. */
  lemma HhiBounds(risks: seq<SymbolRisk>)
    requires NonNegative(risks)
    ensures var s, hhi := SumOf(Weights(risks)), SumOfSquares(Weights(risks));
            hhi <= Square(s) && Square(s) <= (|risks| as real) * hhi
  {
    SquaresBelowSquare(Weights(risks));
    SquareBelowSquares(Weights(risks));
    hide Square, SumOf, SumOfSquares;
  }

  lemma {:induction false} WeightSumIsSum(risks: seq<SymbolRisk>)
    ensures SumOf(Weights(risks)) == WeightSum(risks)
  {
    if risks != [] {
      var p := risks[..|risks| - 1];
      WeightSumIsSum(p);
      assert Weights(risks)[..|risks| - 1] == Weights(p);
    }
  }

  lemma PositiveProduct(x: real, y: real)
    requires x > 0.0 && y > 0.0
    ensures x * y > 0.0
  {
  }

  lemma RootMonotone(x: real, y: real)
    requires y >= 0.0 && Square(x) <= Square(y)
    ensures x <= y
  {
    if x > y {
      var d := x - y;
      assert y + d == x;
      SquareOfSum(y, d);
      PositiveProduct(d, d);
    }
  }

  /** Diversification: the portfolio's standard deviation is at most the weighted sum of the volatilities. */
  lemma SigmaBound(risks: seq<SymbolRisk>, sigma: real)
    requires NonNegative(risks) && forall i :: 0 <= i < |risks| ==> risks[i].sigma >= 0.0
    requires sigma >= 0.0 && Square(sigma) == SumOfSquares(Contributions(risks))
    ensures sigma <= SumOf(Contributions(risks))
    ensures Square(SumOf(Contributions(risks))) <= (|risks| as real) * Square(sigma)
  {
    hide Square, SumOf, SumOfSquares;
    var xs := Contributions(risks);
    forall i | 0 <= i < |xs|
      ensures xs[i] >= 0.0
    {
      MulMonotone(0.0, risks[i].weight, risks[i].sigma);
    }
    hide Contribution;
    SquaresBelowSquare(xs);
    SquareBelowSquares(xs);
    RootMonotone(sigma, SumOf(xs));
  }

  function VaR95(total: real, sigma: real): real {
    total * sigma * 1.645
  }

  /** Hence value at risk is at most 1.645 times the total times that sum. */
  lemma VaRBound(risks: seq<SymbolRisk>, total: real, sigma: real)
    requires NonNegative(risks) && total >= 0.0 && forall i :: 0 <= i < |risks| ==> risks[i].sigma >= 0.0
    requires sigma >= 0.0 && Square(sigma) == SumOfSquares(Contributions(risks))
    ensures 0.0 <= VaR95(total, sigma) <= VaR95(total, SumOf(Contributions(risks)))
  {
    SigmaBound(risks, sigma);
    hide Square, SumOf, SumOfSquares, Contributions;
    var x := SumOf(Contributions(risks));
    MulMonotone(sigma, x, total);
    MulMonotone(0.0, sigma, total);
  }

  lemma {:induction false} SigmasCarried(holdings: seq<Holding>, prices: map<string, real>, sigmas: map<string, real>)
    requires forall s :: s in sigmas ==> sigmas[s] >= 0.0
    ensures var x := Expose(holdings, prices, sigmas);
            x.Exposed? ==> forall i :: 0 <= i < |x.risks| ==> x.risks[i].sigma >= 0.0
  {
    hide ExposureOf;
    if holdings != [] {
      SigmasCarried(holdings[..|holdings| - 1], prices, sigmas);
    }
  }

  // ----- the largest weights -----

  /** Larger weight first, then by symbol. */
  predicate Precedes(a: SymbolRisk, b: SymbolRisk) {
    a.weight > b.weight || (a.weight == b.weight && (a.symbol == b.symbol || Less(a.symbol, b.symbol)))
  }

  predicate Ranked(risks: seq<SymbolRisk>) {
    forall i, j :: 0 <= i < j < |risks| ==> Precedes(risks[i], risks[j])
  }

  lemma PrecedesTransitive(a: SymbolRisk, b: SymbolRisk, c: SymbolRisk)
    requires Precedes(a, b) && Precedes(b, c)
    ensures Precedes(a, c)
  {
    if Less(a.symbol, b.symbol) && Less(b.symbol, c.symbol) {
      LessTransitive(a.symbol, b.symbol, c.symbol);
    }
    hide Less;
  }

  lemma PrecedesTotal(a: SymbolRisk, b: SymbolRisk)
    ensures Precedes(a, b) || Precedes(b, a)
  {
    LessTotal(a.symbol, b.symbol);
    hide Less;
  }

  function InsertRanked(risks: seq<SymbolRisk>, r: SymbolRisk): seq<SymbolRisk> {
    if risks == [] || Precedes(r, risks[0]) then [r] + risks else [risks[0]] + InsertRanked(risks[1..], r)
  }

  lemma RankedCons(r: SymbolRisk, risks: seq<SymbolRisk>)
    requires Ranked(risks) && forall x :: x in risks ==> Precedes(r, x)
    ensures Ranked([r] + risks)
  {
    hide Precedes;
    var all := [r] + risks;
    forall i, j | 0 <= i < j < |all|
      ensures Precedes(all[i], all[j])
    {
      assert all[j] == risks[j - 1] && (i > 0 ==> all[i] == risks[i - 1]);
    }
  }

  lemma {:induction false} InsertRankedFacts(risks: seq<SymbolRisk>, r: SymbolRisk)
    requires Ranked(risks)
    ensures Ranked(InsertRanked(risks, r)) && multiset(InsertRanked(risks, r)) == multiset(risks) + multiset{r}
  {
    hide Precedes;
    if risks == [] || Precedes(r, risks[0]) {
      forall x | x in risks
        ensures Precedes(r, x)
      {
        var j :| 0 <= j < |risks| && risks[j] == x;
        if j > 0 {
          PrecedesTransitive(r, risks[0], x);
        }
      }
      RankedCons(r, risks);
    } else {
      var rest := InsertRanked(risks[1..], r);
      assert risks == [risks[0]] + risks[1..];
      InsertRankedFacts(risks[1..], r);
      PrecedesTotal(r, risks[0]);
      forall x | x in rest
        ensures Precedes(risks[0], x)
      {
        assert x in multiset(rest);
      }
      RankedCons(risks[0], rest);
    }
  }

  function NormalizeTopN(n: int): (r: nat)
    ensures 1 <= r <= 50
  {
    if n <= 0 then 5 else if n > 50 then 50 else n
  }

  /** The n holdings of largest weight, ranked; what is left out ranks behind all of them. */
  method TopByWeight(risks: seq<SymbolRisk>, n: nat) returns (top: seq<SymbolRisk>, ghost rest: seq<SymbolRisk>)
    ensures |top| == if n < |risks| then n else |risks|
    ensures Ranked(top) && multiset(top) + multiset(rest) == multiset(risks)
    ensures forall a, b :: a in top && b in rest ==> Precedes(a, b)
  {
    hide Precedes, InsertRanked;
    var ranked: seq<SymbolRisk> := [];
    var i := 0;
    while i < |risks|
      invariant 0 <= i <= |risks| && Ranked(ranked) && multiset(ranked) == multiset(risks[..i])
    {
      InsertRankedFacts(ranked, risks[i]);
      ranked := InsertRanked(ranked, risks[i]);
      assert risks[..i + 1] == risks[..i] + [risks[i]];
      i := i + 1;
    }
    assert risks[..i] == risks;
    assert |ranked| == |multiset(ranked)| == |risks|;
    var k := if n < |ranked| then n else |ranked|;
    top, rest := ranked[..k], ranked[k..];
    assert ranked == top + rest;
  }

  // ----- the snapshot -----

  predicate NotAfter(a: string, b: string) {
    a == b || Less(a, b)
  }

  predicate BySymbol(risks: seq<SymbolRisk>) {
    forall i, j :: 0 <= i < j < |risks| ==> NotAfter(risks[i].symbol, risks[j].symbol)
  }

  predicate InStringOrder(ss: seq<string>) {
    forall i, j :: 0 <= i < j < |ss| ==> NotAfter(ss[i], ss[j])
  }

  lemma NotAfterOrder(a: string, b: string, c: string)
    ensures NotAfter(a, b) || NotAfter(b, a)
    ensures NotAfter(a, b) && NotAfter(b, c) ==> NotAfter(a, c)
  {
    LessTotal(a, b);
    if Less(a, b) && Less(b, c) {
      LessTransitive(a, b, c);
    }
    hide Less;
  }

  function InsertBySymbol(risks: seq<SymbolRisk>, r: SymbolRisk): seq<SymbolRisk> {
    if risks == [] || NotAfter(r.symbol, risks[0].symbol) then [r] + risks else [risks[0]] + InsertBySymbol(risks[1..], r)
  }

  lemma BySymbolCons(r: SymbolRisk, risks: seq<SymbolRisk>)
    requires BySymbol(risks) && forall x :: x in risks ==> NotAfter(r.symbol, x.symbol)
    ensures BySymbol([r] + risks)
  {
    hide NotAfter;
    var all := [r] + risks;
    forall i, j | 0 <= i < j < |all|
      ensures NotAfter(all[i].symbol, all[j].symbol)
    {
      assert all[j] == risks[j - 1] && (i > 0 ==> all[i] == risks[i - 1]);
    }
  }

  /** The first holding is not after any other, nor is anything that is not after it. */
  lemma BySymbolSplit(risks: seq<SymbolRisk>, s: string)
    requires BySymbol(risks) && risks != [] && NotAfter(s, risks[0].symbol)
    ensures BySymbol(risks[1..]) && forall x :: x in risks ==> NotAfter(s, x.symbol)
  {
    hide NotAfter;
    forall x | x in risks
      ensures NotAfter(s, x.symbol)
    {
      var j :| 0 <= j < |risks| && risks[j] == x;
      if j > 0 {
        NotAfterOrder(s, risks[0].symbol, x.symbol);
      }
    }
  }

  lemma {:induction false} InsertBySymbolContents(risks: seq<SymbolRisk>, r: SymbolRisk)
    ensures multiset(InsertBySymbol(risks, r)) == multiset(risks) + multiset{r}
  {
    hide NotAfter;
    if risks != [] && !NotAfter(r.symbol, risks[0].symbol) {
      assert risks == [risks[0]] + risks[1..];
      InsertBySymbolContents(risks[1..], r);
    }
  }

  lemma {:induction false} InsertBySymbolFacts(risks: seq<SymbolRisk>, r: SymbolRisk)
    requires BySymbol(risks)
    ensures BySymbol(InsertBySymbol(risks, r)) && multiset(InsertBySymbol(risks, r)) == multiset(risks) + multiset{r}
  {
    hide NotAfter, BySymbol;
    InsertBySymbolContents(risks, r);
    if risks == [] {
      OneHolding(r);
      assert InsertBySymbol(risks, r) == [r];
    } else if NotAfter(r.symbol, risks[0].symbol) {
      BySymbolSplit(risks, r.symbol);
      BySymbolCons(r, risks);
    } else {
      var rest := InsertBySymbol(risks[1..], r);
      NotAfterOrder(r.symbol, risks[0].symbol, risks[0].symbol);
      NotAfterOrder(risks[0].symbol, risks[0].symbol, r.symbol);
      BySymbolSplit(risks, risks[0].symbol);
      InsertBySymbolFacts(risks[1..], r);
      InsertBySymbolContents(risks[1..], r);
      NotAfterAll(risks[0].symbol, risks[1..], r, rest);
      BySymbolCons(risks[0], rest);
    }
  }

  lemma NotAfterAll(s: string, risks: seq<SymbolRisk>, r: SymbolRisk, more: seq<SymbolRisk>)
    requires multiset(more) == multiset(risks) + multiset{r}
    requires NotAfter(s, r.symbol) && forall x :: x in risks ==> NotAfter(s, x.symbol)
    ensures forall x :: x in more ==> NotAfter(s, x.symbol)
  {
    hide NotAfter;
    forall x | x in more
      ensures NotAfter(s, x.symbol)
    {
      assert x in multiset(more);
    }
  }

  lemma OneHolding(r: SymbolRisk)
    ensures BySymbol([r])
  {
  }

  lemma {:induction false} TotalOfInsert(risks: seq<SymbolRisk>, r: SymbolRisk)
    ensures Total(InsertBySymbol(risks, r)) == Total(risks) + r.exposure
  {
    hide NotAfter;
    if risks == [] || NotAfter(r.symbol, risks[0].symbol) {
      TotalFront(r, risks);
    } else {
      TotalOfInsert(risks[1..], r);
      TotalFront(risks[0], InsertBySymbol(risks[1..], r));
      TotalFront(risks[0], risks[1..]);
      assert risks == [risks[0]] + risks[1..];
    }
  }

  lemma {:induction false} TotalFront(r: SymbolRisk, risks: seq<SymbolRisk>)
    ensures Total([r] + risks) == r.exposure + Total(risks)
  {
    if risks == [] {
      assert ([r] + risks)[..0] == [];
    } else {
      assert ([r] + risks)[..|risks|] == [r] + risks[..|risks| - 1];
      TotalFront(r, risks[..|risks| - 1]);
    }
  }

  /** Sorted by symbol; the total does not change. */
  method SortBySymbol(risks: seq<SymbolRisk>) returns (sorted: seq<SymbolRisk>)
    ensures BySymbol(sorted) && multiset(sorted) == multiset(risks) && |sorted| == |risks| && Total(sorted) == Total(risks)
  {
    hide BySymbol, InsertBySymbol;
    sorted := [];
    assert BySymbol(sorted) by {
      NothingToOrder();
    }
    var i := 0;
    while i < |risks|
      invariant 0 <= i <= |risks| && BySymbol(sorted) && multiset(sorted) == multiset(risks[..i])
      invariant Total(sorted) == Total(risks[..i])
    {
      InsertBySymbolFacts(sorted, risks[i]);
      TotalOfInsert(sorted, risks[i]);
      assert risks[..i + 1] == risks[..i] + [risks[i]];
      TotalSnoc(risks[..i], risks[i]);
      sorted := InsertBySymbol(sorted, risks[i]);
      i := i + 1;
    }
    assert risks[..i] == risks;
    assert |sorted| == |multiset(sorted)|;
  }

  lemma NothingToOrder()
    ensures BySymbol([]) && InStringOrder([])
  {
  }

  function InsertString(ss: seq<string>, s: string): seq<string> {
    if ss == [] || NotAfter(s, ss[0]) then [s] + ss else [ss[0]] + InsertString(ss[1..], s)
  }

  lemma {:induction false} InsertStringContents(ss: seq<string>, s: string)
    ensures multiset(InsertString(ss, s)) == multiset(ss) + multiset{s}
  {
    hide NotAfter;
    if ss != [] && !NotAfter(s, ss[0]) {
      assert ss == [ss[0]] + ss[1..];
      InsertStringContents(ss[1..], s);
    }
  }

  lemma {:induction false} InsertStringFacts(ss: seq<string>, s: string)
    requires InStringOrder(ss)
    ensures InStringOrder(InsertString(ss, s)) && multiset(InsertString(ss, s)) == multiset(ss) + multiset{s}
  {
    hide NotAfter;
    InsertStringContents(ss, s);
    if ss == [] || NotAfter(s, ss[0]) {
      forall j | 0 <= j < |ss|
        ensures NotAfter(s, ss[j])
      {
        if j > 0 {
          NotAfterOrder(s, ss[0], ss[j]);
        }
      }
    } else {
      InsertStringFacts(ss[1..], s);
      NotAfterOrder(s, ss[0], s);
      FirstInserted(ss, s);
    }
  }

  lemma FirstInserted(ss: seq<string>, s: string)
    requires ss != [] && InStringOrder(ss) && NotAfter(ss[0], s)
    ensures forall j :: 0 <= j < |InsertString(ss[1..], s)| ==> NotAfter(ss[0], InsertString(ss[1..], s)[j])
  {
    hide NotAfter, InsertString;
    var rest := InsertString(ss[1..], s);
    InsertStringContents(ss[1..], s);
    forall j | 0 <= j < |rest|
      ensures NotAfter(ss[0], rest[j])
    {
      assert rest[j] in multiset(rest);
      if rest[j] != s {
        var k :| 0 <= k < |ss[1..]| && ss[1..][k] == rest[j];
        assert ss[k + 1] == rest[j];
      }
    }
  }

  method SortStrings(ss: seq<string>) returns (sorted: seq<string>)
    ensures InStringOrder(sorted) && multiset(sorted) == multiset(ss)
  {
    hide InStringOrder, InsertString;
    sorted := [];
    assert InStringOrder(sorted) by {
      NothingToOrder();
    }
    var i := 0;
    while i < |ss|
      invariant 0 <= i <= |ss| && InStringOrder(sorted) && multiset(sorted) == multiset(ss[..i])
    {
      InsertStringFacts(sorted, ss[i]);
      assert ss[..i + 1] == ss[..i] + [ss[i]];
      sorted := InsertString(sorted, ss[i]);
      i := i + 1;
    }
    assert ss[..i] == ss;
  }

  datatype Snapshot = Snapshot(risks: seq<SymbolRisk>, total: real, sigma: real, var95: real, top: seq<SymbolRisk>, hhi: real, unpriced: seq<string>)

  datatype Built = Built(snapshot: Snapshot) | NoSigma(symbol: string)

  /** The square root of a non-negative real. */
  ghost predicate IsRoot(root: real -> real) {
    forall x :: x >= 0.0 ==> root(x) >= 0.0 && Square(root(x)) == x
  }

  /** What a snapshot says: the priced holdings by symbol with their weights, the unpriced symbols in order, the
      index, the deviation and the value at risk of exactly these, and the largest of them. */
  ghost predicate Describes(s: Snapshot, risks: seq<SymbolRisk>, unpriced: seq<string>, total: real, topN: int) {
    Arranged(s.risks, risks, total) &&
    InStringOrder(s.unpriced) && multiset(s.unpriced) == multiset(unpriced) &&
    s.total == total &&
    s.hhi == SumOfSquares(Weights(s.risks)) &&
    s.sigma >= 0.0 && Square(s.sigma) == SumOfSquares(Contributions(s.risks)) &&
    s.var95 == VaR95(total, s.sigma) &&
    |s.top| == (if NormalizeTopN(topN) < |s.risks| then NormalizeTopN(topN) else |s.risks|) && Ranked(s.top) &&
    Largest(s.top, s.risks)
  }

  /** The holdings by symbol, each with its share of the total. */
  ghost predicate Arranged(arranged: seq<SymbolRisk>, risks: seq<SymbolRisk>, total: real) {
    exists sorted: seq<SymbolRisk> ::
      BySymbol(sorted) && multiset(sorted) == multiset(risks) && Total(sorted) == total && arranged == Weighted(sorted, total)
  }

  /** What is left out ranks behind. */
  ghost predicate Largest(top: seq<SymbolRisk>, risks: seq<SymbolRisk>) {
    exists rest: seq<SymbolRisk> ::
      multiset(top) + multiset(rest) == multiset(risks) &&
      forall a: SymbolRisk, b: SymbolRisk :: a in top && b in rest ==> Precedes(a, b)
  }

  lemma ByArranging(sorted: seq<SymbolRisk>, risks: seq<SymbolRisk>, total: real)
    requires BySymbol(sorted) && multiset(sorted) == multiset(risks) && Total(sorted) == total
    ensures Arranged(Weighted(sorted, total), risks, total)
  {
  }

  /** The first loop, the two sorts, the weights and the figures, in the source's order. */
  method BuildSnapshot(holdings: seq<Holding>, prices: map<string, real>, sigmas: map<string, real>, topN: int, root: real -> real)
    returns (r: Built)
    requires IsRoot(root)
    ensures match Expose(holdings, prices, sigmas)
            case MissingSigma(s) => r == NoSigma(s)
            case Exposed(risks, unpriced, total) => r.Built? && Describes(r.snapshot, risks, unpriced, total, topN)
  {
    hide Expose, Weighted, BySymbol, InStringOrder, Total, SumOfSquares, Weights, Contributions, VaR95, Ranked, Precedes, Square, Arranged;
    var x := BuildExposures(holdings, prices, sigmas);
    if x.MissingSigma? {
      return NoSigma(x.symbol);
    }
    ExposeFacts(holdings, prices, sigmas);
    var sorted := SortBySymbol(x.risks);
    var unpriced := SortStrings(x.unpriced);
    var cells := new SymbolRisk[|sorted|](i requires 0 <= i < |sorted| => sorted[i]);
    assert cells[..] == sorted;
    AssignWeights(cells, x.total);
    var risks := cells[..];
    ByArranging(sorted, x.risks, x.total);
    var variance := Variance(risks);
    var sigma := root(variance);
    var index := Hhi(risks);
    ghost var rest;
    var top;
    top, rest := TopByWeight(risks, NormalizeTopN(topN));
    r := Built(Snapshot(risks, x.total, sigma, VaR95(x.total, sigma), top, index, unpriced));
  }

  /** Every snapshot with a positive total and non-negative volatilities keeps the inequalities. */
  lemma SnapshotInequalities(holdings: seq<Holding>, prices: map<string, real>, sigmas: map<string, real>, topN: int, s: Snapshot)
    requires forall x :: x in sigmas ==> sigmas[x] >= 0.0
    requires var x := Expose(holdings, prices, sigmas);
             x.Exposed? && x.total > 0.0 && Describes(s, x.risks, x.unpriced, x.total, topN)
    ensures var n, w, sum := |s.risks| as real, WeightSum(s.risks), SumOf(Contributions(s.risks));
            Abs(w - 1.0) <= HalfUlps16(n) && s.hhi <= Square(w) && Square(w) <= n * s.hhi &&
            s.sigma <= sum && 0.0 <= s.var95 <= VaR95(s.total, sum)
  {
    hide Expose, Square, SumOf, SumOfSquares, Contributions, Weights, WeightSum, VaR95, HalfUlps16, Total, Largest, BySymbol,
         InStringOrder, Ranked, NonNegative, Weighted;
    var x := Expose(holdings, prices, sigmas);
    var sorted: seq<SymbolRisk> :| BySymbol(sorted) && multiset(sorted) == multiset(x.risks) && Total(sorted) == x.total &&
      s.risks == Weighted(sorted, x.total);
    ExposeFacts(holdings, prices, sigmas);
    SigmasCarried(holdings, prices, sigmas);
    PermutedRisks(x.risks, sorted);
    WeightsSumToOne(sorted);
    WeightsNonNegative(sorted, x.total);
    WeightedSigmas(sorted, x.total);
    HhiBounds(s.risks);
    WeightSumIsSum(s.risks);
    SigmaBound(s.risks, s.sigma);
    VaRBound(s.risks, x.total, s.sigma);
  }

  lemma WeightedSigmas(risks: seq<SymbolRisk>, total: real)
    requires forall i :: 0 <= i < |risks| ==> risks[i].sigma >= 0.0
    ensures |Weighted(risks, total)| == |risks|
    ensures forall i :: 0 <= i < |risks| ==> Weighted(risks, total)[i].sigma >= 0.0
  {
    hide Div16;
  }

  lemma PermutedRisks(a: seq<SymbolRisk>, b: seq<SymbolRisk>)
    requires multiset(a) == multiset(b) && NonNegative(a) && forall i :: 0 <= i < |a| ==> a[i].sigma >= 0.0
    ensures NonNegative(b) && forall i :: 0 <= i < |b| ==> b[i].sigma >= 0.0
  {
    forall i | 0 <= i < |b|
      ensures b[i] in a
    {
      assert b[i] in multiset(b);
    }
  }
}
