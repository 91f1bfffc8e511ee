/** Weighted-average-cost lots of one portfolio and the effect of one trade on them. */
module Positions {
  import opened Decimals

  datatype Side = Buy | Sell | UnknownSide

  datatype TradePayload = TradePayload(symbol: string, side: Side, qty: real, price: real)

  /** A trade that passed ingestion: quantity and price are positive. */
  type Trade = t: TradePayload | t.qty > 0.0 && t.price > 0.0
    witness TradePayload("", Buy, 1.0, 1.0)

  datatype PositionLot = PositionLot(qty: real, avg: real, realized: real)

  /** Long-only: neither the quantity nor the average cost is ever negative. Every function and method
      below that produces a lot is checked against this. */
  type Lot = l: PositionLot | l.qty >= 0.0 && l.avg >= 0.0
    witness PositionLot(0.0, 0.0, 0.0)

  type Lots = map<string, Lot>

  const FLAT: Lot := PositionLot(0.0, 0.0, 0.0)

  /** A missing symbol reads as the zero lot. */
  function At(lots: Lots, symbol: string): Lot {
    if symbol in lots then lots[symbol] else FLAT
  }

  /** A flat lot that has realized nothing is not kept. */
  function Put(lots: Lots, symbol: string, lot: Lot): (r: Lots)
    ensures forall s :: At(r, s).qty == if s == symbol then lot.qty else At(lots, s).qty
    ensures forall s :: At(r, s).realized == if s == symbol then lot.realized else At(lots, s).realized
    ensures forall s :: s != symbol ==> At(r, s) == At(lots, s)
  {
    if lot.qty == 0.0 && lot.realized == 0.0 then lots - {symbol} else lots[symbol := lot]
  }

  /** So many shares at so much a share. */
  function Worth(qty: real, price: real): real {
    qty * price
  }

  /** What the shares held after a buy have cost: those held before at their average cost, plus the cash
      paid now. */
  function CostAfter(lot: Lot, qty: real, price: real): real {
    Worth(lot.qty, lot.avg) + Worth(qty, price)
  }

  function QtyAfter(lot: Lot, qty: real): real {
    lot.qty + qty
  }

  function Bought(lot: Lot, qty: real, price: real): (r: Lot)
    requires qty > 0.0 && price > 0.0
  {
    WeightedCostNonNegative(lot, qty, price);
    PositionLot(QtyAfter(lot, qty), Div16(CostAfter(lot, qty, price), QtyAfter(lot, qty)), lot.realized)
  }

  /** Profit realized by selling qty at price. */
  function Gain(lot: Lot, qty: real, price: real): real {
    Worth(qty, price - lot.avg)
  }

  function Sold(lot: Lot, qty: real, price: real): (r: Lot)
    requires 0.0 < qty <= lot.qty
  {
    var left := lot.qty - qty;
    PositionLot(left, if left == 0.0 then 0.0 else lot.avg, lot.realized + Gain(lot, qty, price))
  }

  datatype Outcome = Applied(lots: Lots) | Underflow | InvalidSide

  /** What one trade does to the lots. */
  function Execute(lots: Lots, t: Trade): Outcome {
    var lot := At(lots, t.symbol);
    match t.side
    case Buy => Applied(Put(lots, t.symbol, Bought(lot, t.qty, t.price)))
    case Sell =>
      if lot.qty < t.qty then Underflow else Applied(Put(lots, t.symbol, Sold(lot, t.qty, t.price)))
    case UnknownSide => InvalidSide
  }

  // ----- the mutable position book -----

  datatype TradeError = ErrPositionUnderflow | ErrValidation

  datatype TradeResult = Accepted | Rejected(error: TradeError)

  class PositionBook {
    var bySymbol: Lots

    constructor ()
      ensures bySymbol == map[]
    {
      bySymbol := map[];
    }

    constructor FromLots(lots: Lots)
      ensures bySymbol == lots
    {
      bySymbol := lots;
    }

    function Lot(symbol: string): Lot
      reads this
    {
      At(bySymbol, symbol)
    }

    /** A rejected trade leaves the book untouched. */
    method ApplyTrade(t: Trade) returns (r: TradeResult)
      modifies this
      ensures match Execute(old(bySymbol), t)
              case Applied(lots) => r == Accepted && bySymbol == lots
              case Underflow => r == Rejected(ErrPositionUnderflow) && bySymbol == old(bySymbol)
              case InvalidSide => r == Rejected(ErrValidation) && bySymbol == old(bySymbol)
    {
      match t.side {
        case Buy =>
          var cur := Lot(t.symbol);
          var newQty := QtyAfter(cur, t.qty);
          var numer := CostAfter(cur, t.qty, t.price);
          WeightedCostNonNegative(cur, t.qty, t.price);
          var newAvg := Div16(numer, newQty);
          var lot: Lot := PositionLot(newQty, newAvg, cur.realized);
          bySymbol := bySymbol[t.symbol := lot];
          return Accepted;
        case Sell =>
          var cur := Lot(t.symbol);
          if cur.qty < t.qty {
            return Rejected(ErrPositionUnderflow);
          }
          var pnl := Gain(cur, t.qty, t.price);
          var newReal := cur.realized + pnl;
          var newQty := cur.qty - t.qty;
          if newQty == 0.0 {
            if newReal == 0.0 {
              bySymbol := bySymbol - {t.symbol};
            } else {
              bySymbol := bySymbol[t.symbol := PositionLot(0.0, 0.0, newReal)];
            }
            return Accepted;
          }
          bySymbol := bySymbol[t.symbol := PositionLot(newQty, cur.avg, newReal)];
          return Accepted;
        case UnknownSide =>
          return Rejected(ErrValidation);
      }
    }
  }

  // ----- arithmetic of one buy -----

  lemma MulMonotone(x: real, y: real, b: real)
    requires b >= 0.0 && x <= y
    ensures x * b <= y * b
  {
    assert (y - x) * b >= 0.0;
  }

  lemma MulCancel(x: real, y: real, b: real)
    requires b > 0.0 && x * b <= y * b
    ensures x <= y
  {
    assert (y - x) * b >= 0.0;
  }

  lemma MulBound(a: real, x: real, b: real)
    requires a >= 0.0 && Abs(x) <= b
    ensures Abs(a * x) <= a * b
  {
    MulMonotone(x, b, a);
    MulMonotone(-b, x, a);
  }

  lemma WeightedCostNonNegative(lot: Lot, qty: real, price: real)
    requires qty > 0.0 && price > 0.0
    ensures QtyAfter(lot, qty) > 0.0
    ensures Div16(CostAfter(lot, qty, price), QtyAfter(lot, qty)) >= 0.0
  {
    hide Div16;
    MulMonotone(0.0, lot.qty, lot.avg);
    MulMonotone(0.0, qty, price);
    QuotientNonNegative(CostAfter(lot, qty, price), QtyAfter(lot, qty));
  }

  lemma QuotientNonNegative(a: real, b: real)
    requires a >= 0.0 && b > 0.0
    ensures Div16(a, b) >= 0.0
  {
    var q := a / b;
    assert q * b == a;
    MulCancel(0.0, q, b);
    NearestFixesIntegers(0);
    NearestMonotone(0.0, q * 10000000000000000.0);
  }

  /** Multiplying a rounded quotient back loses at most half a unit per share. */
  lemma QuotientTimesDivisor(a: real, b: real)
    requires b > 0.0
    ensures Abs(Worth(b, Div16(a, b)) - a) <= HalfUlps16(b)
  {
    var q, d := a / b, Div16(a, b);
    assert q * b == a;
    Div16Error(a, b);
    MulBound(b, d - q, HalfUlps16(1.0));
    assert b * (d - q) == b * d - b * q;
  }

  /** The book value of a buy: what the lot is worth at cost grows by the cash paid, up to half a unit in
      the sixteenth decimal per share held. */
  lemma BoughtCost(lot: Lot, qty: real, price: real)
    requires qty > 0.0 && price > 0.0
    ensures var r := Bought(lot, qty, price);
            Abs(Worth(r.qty, r.avg) - CostAfter(lot, qty, price)) <= HalfUlps16(r.qty)
  {
    hide Div16;
    QuotientTimesDivisor(CostAfter(lot, qty, price), QtyAfter(lot, qty));
    hide Worth;
  }

  /** A buy at a price between lo and hi keeps the average cost between them, rounding included, when the
      bounds have at most eight decimals. */
  lemma BoughtBetween(lot: Lot, qty: real, price: real, lo: real, hi: real)
    requires qty > 0.0 && price > 0.0 && IsGrid8(lo) && IsGrid8(hi)
    requires lo <= price <= hi
    requires lot.qty > 0.0 ==> lo <= lot.avg <= hi
    ensures lo <= Bought(lot, qty, price).avg <= hi
  {
    hide Div16, IsGrid8;
    if lot.qty > 0.0 {
      MulMonotone(lo, lot.avg, lot.qty);
      MulMonotone(lot.avg, hi, lot.qty);
    }
    MulMonotone(lo, price, qty);
    MulMonotone(price, hi, qty);
    QuotientWithin(CostAfter(lot, qty, price), QtyAfter(lot, qty), lo, hi);
  }

  lemma QuotientWithin(a: real, b: real, lo: real, hi: real)
    requires b > 0.0 && IsGrid8(lo) && IsGrid8(hi)
    requires lo * b <= a <= hi * b
    ensures lo <= Div16(a, b) <= hi
  {
    var q := a / b;
    assert q * b == a;
    MulCancel(lo, q, b);
    MulCancel(q, hi, b);
    Div16Between(a, b, lo, hi);
  }

  /** Buying never amplifies a difference between two average costs: it adds at most one division error
      on each side. */
  lemma BoughtContracts(a: Lot, b: Lot, qty: real, price: real)
    requires qty > 0.0 && price > 0.0 && a.qty == b.qty
    ensures Abs(Bought(a, qty, price).avg - Bought(b, qty, price).avg) <= Abs(a.avg - b.avg) + HalfUlps16(2.0)
  {
    hide Div16;
    var d := Abs(a.avg - b.avg);
    MulBound(a.qty, a.avg - b.avg, d);
    MulMonotone(0.0, d, qty);
    QuotientsClose(CostAfter(a, qty, price), CostAfter(b, qty, price), QtyAfter(a, qty), d);
  }

  lemma QuotientsClose(m: real, n: real, b: real, d: real)
    requires b > 0.0 && Abs(m - n) <= d * b
    ensures Abs(Div16(m, b) - Div16(n, b)) <= d + HalfUlps16(2.0)
  {
    Div16Error(m, b);
    Div16Error(n, b);
    hide Div16;
    RatiosClose(m, n, b, d);
  }

  lemma RatiosClose(m: real, n: real, b: real, d: real)
    requires b > 0.0 && Abs(m - n) <= d * b
    ensures Abs(m / b - n / b) <= d
  {
    var p, q := m / b, n / b;
    assert p * b == m && q * b == n;
    assert (p - q) * b == m - n;
    MulCancel(p - q, d, b);
    assert (-d) * b == -(d * b);
    MulCancel(-d, p - q, b);
  }
}
