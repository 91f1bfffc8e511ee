/** Accounting laws over whole histories of one portfolio, restarts included: how far a restarted run can
    drift from an uninterrupted one, conservation of profit and cash, the range of the average cost, and
    the independence of symbols. */
module Accounting {
  import opened Decimals
  import opened Positions
  import opened Events
  import opened History

  predicate Buys(ev: Event, s: string) {
    TradesSymbol(ev, s) && ev.payload.trade.side == Buy
  }

  predicate Sells(ev: Event, s: string) {
    TradesSymbol(ev, s) && ev.payload.trade.side == Sell
  }

  function BuyCount(applied: seq<Event>, s: string): nat {
    if applied == [] then 0
    else BuyCount(applied[..|applied| - 1], s) + if Buys(applied[|applied| - 1], s) then 1 else 0
  }

  function QtySold(applied: seq<Event>, s: string): (q: real)
    ensures q >= 0.0
  {
    if applied == [] then 0.0
    else
      var ev := applied[|applied| - 1];
      QtySold(applied[..|applied| - 1], s) + if Sells(ev, s) then ev.payload.trade.qty else 0.0
  }

  /** Net cash received in s: sells bring money in, buys take it out. */
  function Cash(applied: seq<Event>, s: string): real {
    if applied == [] then 0.0
    else
      var ev := applied[|applied| - 1];
      Cash(applied[..|applied| - 1], s) +
      if Sells(ev, s) then Worth(ev.payload.trade.qty, ev.payload.trade.price)
      else if Buys(ev, s) then -Worth(ev.payload.trade.qty, ev.payload.trade.price)
      else 0.0
  }

  lemma AppliedSnoc(applied: seq<Event>, ev: Event, s: string)
    ensures BuyCount(applied + [ev], s) == BuyCount(applied, s) + if Buys(ev, s) then 1 else 0
    ensures QtySold(applied + [ev], s) == QtySold(applied, s) + if Sells(ev, s) then ev.payload.trade.qty else 0.0
    ensures Cash(applied + [ev], s) == Cash(applied, s) +
            if Sells(ev, s) then Worth(ev.payload.trade.qty, ev.payload.trade.price)
            else if Buys(ev, s) then -Worth(ev.payload.trade.qty, ev.payload.trade.price)
            else 0.0
  {
    assert (applied + [ev])[..|applied|] == applied;
  }

  /** The lot of s after one event: only an accepted trade in s changes it. */
  function LotAfter(lot: Lot, ev: Event, s: string): Lot {
    if Buys(ev, s) then Bought(lot, ev.payload.trade.qty, ev.payload.trade.price)
    else if Sells(ev, s) && ev.payload.trade.qty <= lot.qty then
      Sold(lot, ev.payload.trade.qty, ev.payload.trade.price)
    else lot
  }

  lemma FoldEventAt(l: Ledger, ev: Event, s: string)
    ensures var r, lot := FoldEvent(l, ev), At(l.lots, s);
            At(r.lots, s) == LotAfter(lot, ev, s) &&
            (Buys(ev, s) || (Sells(ev, s) && ev.payload.trade.qty <= lot.qty) ==> r.applied == l.applied + [ev]) &&
            (Sells(ev, s) && lot.qty < ev.payload.trade.qty ==> r.applied == l.applied) &&
            (r.applied == l.applied || r.applied == l.applied + [ev])
  {
    hide Div16, Worth;
  }

  // ----- restart drift -----

  /** The average cost may be off by half a stored unit per restart and one division unit per buy. */
  function AvgBound(restarts: nat, buys: nat): (b: real)
    ensures b >= 0.0
  {
    HalfUlps8(restarts as real) + HalfUlps16(2.0 * buys as real)
  }

  function RealizedBound(restarts: nat, buys: nat, sold: real): real {
    HalfUlps8(restarts as real) + Worth(sold, AvgBound(restarts, buys))
  }

  lemma BoundsAfterBuy(r: nat, n: nat, sold: real)
    requires sold >= 0.0
    ensures AvgBound(r, n + 1) == AvgBound(r, n) + HalfUlps16(2.0)
    ensures RealizedBound(r, n, sold) <= RealizedBound(r, n + 1, sold)
  {
    MulMonotone(AvgBound(r, n), AvgBound(r, n + 1), sold);
  }

  lemma BoundsAfterSell(r: nat, n: nat, sold: real, qty: real)
    ensures RealizedBound(r, n, sold + qty) == RealizedBound(r, n, sold) + Worth(qty, AvgBound(r, n))
  {
    var bound := AvgBound(r, n);
    hide AvgBound;
    assert (sold + qty) * bound == sold * bound + qty * bound;
  }

  lemma BoundsAfterRestart(r: nat, n: nat, sold: real)
    requires sold >= 0.0
    ensures AvgBound(r + 1, n) == AvgBound(r, n) + HalfUlps8(1.0)
    ensures RealizedBound(r, n, sold) + HalfUlps8(1.0) <= RealizedBound(r + 1, n, sold)
  {
    MulMonotone(AvgBound(r, n), AvgBound(r + 1, n), sold);
  }

  /** The two lots hold the same quantity; cost and profit differ by no more than the bounds. */
  predicate Close(a: Lot, b: Lot, avgBound: real, realizedBound: real) {
    a.qty == b.qty && Abs(a.avg - b.avg) <= avgBound && Abs(a.realized - b.realized) <= realizedBound
  }

  lemma CloseBought(a: Lot, b: Lot, qty: real, price: real, avgBound: real, realizedBound: real)
    requires qty > 0.0 && price > 0.0
    requires Close(a, b, avgBound, realizedBound)
    ensures Close(Bought(a, qty, price), Bought(b, qty, price), avgBound + HalfUlps16(2.0), realizedBound)
  {
    BoughtContracts(a, b, qty, price);
    hide Div16;
  }

  lemma CloseSold(a: Lot, b: Lot, qty: real, price: real, avgBound: real, realizedBound: real)
    requires 0.0 < qty <= a.qty
    requires Close(a, b, avgBound, realizedBound)
    ensures Close(Sold(a, qty, price), Sold(b, qty, price), avgBound, realizedBound + Worth(qty, avgBound))
  {
    GainDifference(a, b, qty, price, avgBound);
    hide Gain, Worth;
  }

  lemma GainDifference(a: Lot, b: Lot, qty: real, price: real, avgBound: real)
    requires qty > 0.0 && Abs(a.avg - b.avg) <= avgBound
    ensures Abs(Gain(a, qty, price) - Gain(b, qty, price)) <= Worth(qty, avgBound)
  {
    var x, y := price - a.avg, price - b.avg;
    MulBound(qty, x - y, avgBound);
    assert qty * x - qty * y == qty * (x - y);
  }

  lemma CloseRestart(a: Lot, b: Lot, avgBound: real, realizedBound: real)
    requires IsGrid8(a.qty)
    requires Close(a, b, avgBound, realizedBound)
    ensures Close(RoundLot(a), b, avgBound + HalfUlps8(1.0), realizedBound + HalfUlps8(1.0))
  {
    Round8FixesGrid(a.qty);
    Round8Error(a.avg);
    Round8Error(a.realized);
    hide Round8;
  }

  /** Restart drift: with r restarts and, in this symbol, n buys and a total of q sold, quantities agree
      exactly with the uninterrupted run, the average cost is within r half units of the eighth decimal
      plus n units of the sixteenth, and the realized profit within r half units plus that bound times q. */
  lemma {:induction false} RestartDrift(h: seq<Entry>, s: string)
    requires EightDecimals(EventsOf(h))
    ensures Drifted(Replay(h), Replay(WithoutRestarts(h)), Restarts(h), s)
  {
    hide Drifted, FoldEvent, IsGrid8;
    if h == [] {
      EmptyHasNotDrifted(s);
    } else {
      var p, e := h[..|h| - 1], h[|h| - 1];
      Unsnoc(h);
      ReplaySnoc(p, e);
      assert EightDecimals(EventsOf(p));
      RestartDrift(p, s);
      RestartsKeepQuantities(p);
      hide GridQuantities, SameQuantities, Replay;
      match e {
        case Restart =>
          if EventsOf(p) == [] {
            NoEventsNothingReplayed(p);
            NoEventsNothingReplayed(h);
          }
          DriftRestart(Replay(p), Replay(WithoutRestarts(p)), Restarts(p), s);
        case Handled(ev, stale) =>
          ReplaySnoc(WithoutRestarts(p), e);
          if stale {
            DriftStale(Replay(p), Replay(WithoutRestarts(p)), Restarts(p), s, ev);
          } else {
            DriftStep(Replay(p), Replay(WithoutRestarts(p)), Restarts(p), s, ev);
          }
      }
    }
  }

  predicate Drifted(a: Ledger, b: Ledger, r: nat, s: string) {
    var n, sold := BuyCount(b.applied, s), QtySold(b.applied, s);
    Close(At(a.lots, s), At(b.lots, s), AvgBound(r, n), RealizedBound(r, n, sold))
  }

  lemma EmptyHasNotDrifted(s: string)
    ensures Drifted(EMPTY, EMPTY, 0, s)
  {
  }

  lemma {:induction false} DriftRestart(a: Ledger, b: Ledger, r: nat, s: string)
    requires Drifted(a, b, r, s) && GridQuantities(a.lots)
    ensures Drifted(FoldEntry(a, Restart), b, r + 1, s)
  {
    var n, sold := BuyCount(b.applied, s), QtySold(b.applied, s);
    RoundedAt(a.lots, s);
    hide IsGrid8;
    CloseRestart(At(a.lots, s), At(b.lots, s), AvgBound(r, n), RealizedBound(r, n, sold));
    BoundsAfterRestart(r, n, sold);
    hide AvgBound, RealizedBound, RoundLot;
  }

  lemma DriftStale(a: Ledger, b: Ledger, r: nat, s: string, ev: Event)
    requires Drifted(a, b, r, s)
    ensures Drifted(FoldEntry(a, Handled(ev, true)), FoldEntry(b, Handled(ev, true)), r, s)
  {
    hide AvgBound, RealizedBound;
  }

  lemma {:induction false} DriftStep(a: Ledger, b: Ledger, r: nat, s: string, ev: Event)
    requires Drifted(a, b, r, s)
    ensures Drifted(FoldEvent(a, ev), FoldEvent(b, ev), r, s)
  {
    var n, sold := BuyCount(b.applied, s), QtySold(b.applied, s);
    FoldEventAt(a, ev, s);
    FoldEventAt(b, ev, s);
    AppliedSnoc(b.applied, ev, s);
    hide FoldEvent, AvgBound, RealizedBound, Cash, BuyCount, QtySold, Bought, Sold, Worth;
    DriftOfLots(At(a.lots, s), At(b.lots, s), ev, r, n, sold, s);
  }

  lemma DriftOfLots(a: Lot, b: Lot, ev: Event, r: nat, n: nat, sold: real, s: string)
    requires sold >= 0.0 && Close(a, b, AvgBound(r, n), RealizedBound(r, n, sold))
    ensures var n' := n + if Buys(ev, s) then 1 else 0;
            var sold' := sold + if Sells(ev, s) && ev.payload.trade.qty <= a.qty then ev.payload.trade.qty else 0.0;
            Close(LotAfter(a, ev, s), LotAfter(b, ev, s), AvgBound(r, n'), RealizedBound(r, n', sold'))
  {
    hide AvgBound, RealizedBound, Bought, Sold, Worth;
    if Buys(ev, s) {
      CloseBought(a, b, ev.payload.trade.qty, ev.payload.trade.price, AvgBound(r, n), RealizedBound(r, n, sold));
      BoundsAfterBuy(r, n, sold);
    } else if Sells(ev, s) && ev.payload.trade.qty <= a.qty {
      CloseSold(a, b, ev.payload.trade.qty, ev.payload.trade.price, AvgBound(r, n), RealizedBound(r, n, sold));
      BoundsAfterSell(r, n, sold, ev.payload.trade.qty);
    }
  }

  // ----- conservation of profit and cash -----

  /** Realized profit minus what cash flow and inventory at average cost explain. */
  function Imbalance(lot: Lot, cash: real): real {
    lot.realized - cash - Worth(lot.qty, lot.avg)
  }

  /** What one history entry may add to the imbalance of s: half a division unit for every share held after
      a buy; at a restart half a stored unit per share for the rounded cost and one for the rounded profit,
      plus what rounding the quantity itself is worth (nothing for quantities with eight decimals). */
  function EntrySlack(l: Ledger, e: Entry, s: string): real {
    var lot := At(l.lots, s);
    match e
    case Restart => HalfUlps8(lot.qty + 1.0) + Worth(Abs(Round8(lot.qty) - lot.qty), Round8(lot.avg))
    case Handled(ev, stale) =>
      if !stale && Buys(ev, s) then HalfUlps16(lot.qty + ev.payload.trade.qty) else 0.0
  }

  function Slack(h: seq<Entry>, s: string): real {
    if h == [] then 0.0 else Slack(h[..|h| - 1], s) + EntrySlack(Replay(h[..|h| - 1]), h[|h| - 1], s)
  }

  lemma ImbalanceBought(lot: Lot, cash: real, qty: real, price: real)
    requires qty > 0.0 && price > 0.0
    ensures Abs(Imbalance(Bought(lot, qty, price), cash - Worth(qty, price)) - Imbalance(lot, cash))
            <= HalfUlps16(lot.qty + qty)
  {
    BoughtCost(lot, qty, price);
    hide Div16, Worth;
  }

  lemma ImbalanceSold(lot: Lot, cash: real, qty: real, price: real)
    requires 0.0 < qty <= lot.qty
    ensures Imbalance(Sold(lot, qty, price), cash + Worth(qty, price)) == Imbalance(lot, cash)
  {
    SellSplitsCost(lot.qty, lot.avg, qty, price);
    hide Worth;
  }

  lemma SellSplitsCost(held: real, avg: real, qty: real, price: real)
    ensures Worth(qty, price - avg) == Worth(qty, price) - Worth(qty, avg)
    ensures Worth(held - qty, avg) == Worth(held, avg) - Worth(qty, avg)
    ensures Worth(0.0, 0.0) == 0.0
    ensures held - qty == 0.0 ==> Worth(held - qty, avg) == 0.0
  {
    assert qty * (price - avg) == qty * price - qty * avg;
    assert (held - qty) * avg == held * avg - qty * avg;
  }

  lemma ImbalanceRestart(lot: Lot, cash: real)
    ensures Abs(Imbalance(RoundLot(lot), cash) - Imbalance(lot, cash))
            <= HalfUlps8(lot.qty + 1.0) + Worth(Abs(Round8(lot.qty) - lot.qty), Round8(lot.avg))
  {
    Round8Error(lot.avg);
    Round8Error(lot.realized);
    RoundedWorth(lot.qty, lot.avg, Round8(lot.qty), Round8(lot.avg));
    hide Round8, Worth;
  }

  lemma RoundedWorth(q: real, a: real, q': real, a': real)
    requires q >= 0.0 && a' >= 0.0 && Abs(a' - a) <= HalfUlps8(1.0)
    ensures Abs(Worth(q', a') - Worth(q, a)) <= HalfUlps8(q) + Worth(Abs(q' - q), a')
  {
    WorthBound(q, a' - a, HalfUlps8(1.0));
    WorthBound(a', q' - q, Abs(q' - q));
    WorthDifference(q, a, q', a');
    WorthCommutes(a', Abs(q' - q));
    UlpsWorth(q);
    hide Worth, HalfUlps8;
  }

  lemma WorthBound(a: real, x: real, b: real)
    requires a >= 0.0 && Abs(x) <= b
    ensures Abs(Worth(a, x)) <= Worth(a, b)
  {
    MulBound(a, x, b);
  }

  lemma WorthCommutes(a: real, b: real)
    ensures Worth(a, b) == Worth(b, a)
  {
  }

  lemma UlpsWorth(q: real)
    ensures Worth(q, HalfUlps8(1.0)) == HalfUlps8(q)
  {
  }

  lemma WorthDifference(q: real, a: real, q': real, a': real)
    ensures Worth(q', a') - Worth(q, a) == Worth(a', q' - q) + Worth(q, a' - a)
  {
    assert a' * (q' - q) == a' * q' - a' * q;
    assert q * (a' - a) == q * a' - q * a;
  }

  lemma {:induction false} ImbalanceOfEntry(l: Ledger, e: Entry, s: string)
    ensures var r := FoldEntry(l, e);
            Abs(Imbalance(At(r.lots, s), Cash(r.applied, s)) - Imbalance(At(l.lots, s), Cash(l.applied, s)))
            <= EntrySlack(l, e, s)
  {
    match e {
      case Restart =>
        RoundedAt(l.lots, s);
        ImbalanceRestart(At(l.lots, s), Cash(l.applied, s));
        hide Round8, Worth, Imbalance, Cash;
      case Handled(ev, stale) =>
        if !stale {
          ImbalanceOfEvent(l, ev, s);
        }
        hide FoldEvent, Cash, Worth, Imbalance;
    }
  }

  lemma {:induction false} ImbalanceOfEvent(l: Ledger, ev: Event, s: string)
    ensures var r := FoldEvent(l, ev);
            Abs(Imbalance(At(r.lots, s), Cash(r.applied, s)) - Imbalance(At(l.lots, s), Cash(l.applied, s)))
            <= EntrySlack(l, Handled(ev, false), s)
  {
    var lot, cash := At(l.lots, s), Cash(l.applied, s);
    FoldEventAt(l, ev, s);
    AppliedSnoc(l.applied, ev, s);
    hide FoldEvent, Cash, Worth, Imbalance, Bought, Sold, At;
    if Buys(ev, s) {
      ImbalanceBought(lot, cash, ev.payload.trade.qty, ev.payload.trade.price);
    } else if Sells(ev, s) && ev.payload.trade.qty <= lot.qty {
      ImbalanceSold(lot, cash, ev.payload.trade.qty, ev.payload.trade.price);
    }
  }

  /** Conservation: after any history the realized profit in a symbol equals the net cash flow of its
      applied trades plus the inventory at average cost, up to the accumulated rounding slack. */
  lemma {:induction false} ProfitIsConserved(h: seq<Entry>, s: string)
    ensures var l := Replay(h);
            Abs(Imbalance(At(l.lots, s), Cash(l.applied, s))) <= Slack(h, s)
  {
    hide FoldEntry, Imbalance, EntrySlack, Cash, Worth;
    if h == [] {
      EmptyIsBalanced(s);
    } else {
      var p, e := h[..|h| - 1], h[|h| - 1];
      ProfitIsConserved(p, s);
      ImbalanceOfEntry(Replay(p), e, s);
      assert Replay(h) == FoldEntry(Replay(p), e);
      assert Slack(h, s) == Slack(p, s) + EntrySlack(Replay(p), e, s);
      hide Replay, Slack;
    }
  }

  lemma EmptyIsBalanced(s: string)
    ensures Imbalance(At(EMPTY.lots, s), Cash(EMPTY.applied, s)) == 0.0
  {
  }

  /** Hence total profit at any mark is cash flow plus the holding at that mark, within the same slack: it
      does not depend on how cost was averaged. */
  lemma {:induction false} TotalProfitAtMark(h: seq<Entry>, s: string, mark: real)
    ensures var l := Replay(h);
            var lot := At(l.lots, s);
            var unrealized := Worth(lot.qty, mark - lot.avg);
            Abs(lot.realized + unrealized - (Cash(l.applied, s) + Worth(lot.qty, mark))) <= Slack(h, s)
  {
    ProfitIsConserved(h, s);
    hide Replay, Slack, Cash;
    var lot := At(Replay(h).lots, s);
    SellSplitsCost(lot.qty, lot.avg, lot.qty, mark);
    hide Worth;
  }

  // ----- range of the average cost -----

  datatype Range = NoBuys | Between(lo: real, hi: real)

  function Widen(r: Range, p: real): Range {
    match r
    case NoBuys => Between(p, p)
    case Between(lo, hi) => Between(if p < lo then p else lo, if p > hi then p else hi)
  }

  /** The least and greatest buy price in s since its lot was last flat. */
  function BuyRange(h: seq<Entry>, s: string): Range {
    if h == [] then NoBuys
    else
      var p, e := h[..|h| - 1], h[|h| - 1];
      var before := if At(Replay(p).lots, s).qty == 0.0 then NoBuys else BuyRange(p, s);
      if e.Handled? && !e.stale && Buys(e.ev, s) then Widen(before, e.ev.payload.trade.price) else before
  }

  predicate EightDecimalPrices(events: seq<Event>) {
    forall ev :: ev in events && ev.payload.TradeExecuted? ==> IsGrid8(ev.payload.trade.price)
  }

  predicate WithinRange(lot: Lot, r: Range) {
    (lot.qty > 0.0 ==> r.Between? && r.lo <= lot.avg <= r.hi) &&
    (r.Between? ==> IsGrid8(r.lo) && IsGrid8(r.hi))
  }

  /** An open lot's average cost lies between the least and the greatest price paid since the lot was last
      flat, whatever the rounding of divisions and restarts. */
  lemma {:induction false} AverageCostWithinPaidPrices(h: seq<Entry>, s: string)
    requires EightDecimalPrices(EventsOf(h))
    ensures WithinRange(At(Replay(h).lots, s), BuyRange(h, s))
  {
    if h != [] {
      var p, e := h[..|h| - 1], h[|h| - 1];
      Unsnoc(h);
      ReplaySnoc(p, e);
      assert EightDecimalPrices(EventsOf(p));
      AverageCostWithinPaidPrices(p, s);
      var l := Replay(p);
      var lot := At(l.lots, s);
      var before := if lot.qty == 0.0 then NoBuys else BuyRange(p, s);
      match e {
        case Restart =>
          RoundedAt(l.lots, s);
          RangeRestart(lot, before);
        case Handled(ev, stale) =>
          assert ev in EventsOf(h);
          if !stale {
            FoldEventAt(l, ev, s);
            hide FoldEvent;
            if Buys(ev, s) {
              RangeBought(lot, before, ev.payload.trade.qty, ev.payload.trade.price);
            }
          }
      }
    }
  }

  lemma RangeBought(lot: Lot, r: Range, qty: real, price: real)
    requires qty > 0.0 && price > 0.0 && IsGrid8(price)
    requires WithinRange(lot, r)
    ensures WithinRange(Bought(lot, qty, price), Widen(r, price))
  {
    var w := Widen(r, price);
    BoughtBetween(lot, qty, price, w.lo, w.hi);
    hide Div16;
  }

  lemma {:induction false} RangeRestart(lot: Lot, r: Range)
    requires WithinRange(lot, r)
    requires lot.qty == 0.0 ==> r == NoBuys
    ensures WithinRange(RoundLot(lot), r)
  {
    if lot.qty > 0.0 {
      Round8Monotone(r.lo, lot.avg);
      Round8Monotone(lot.avg, r.hi);
      Round8FixesGrid(r.lo);
      Round8FixesGrid(r.hi);
    } else {
      NearestFixesIntegers(0);
    }
  }

  // ----- symbols do not interact -----

  /** The part of a history that concerns one symbol. */
  function Only(h: seq<Entry>, s: string): seq<Entry> {
    if h == [] then []
    else
      var rest, e := Only(h[..|h| - 1], s), h[|h| - 1];
      if e.Restart? || TradesSymbol(e.ev, s) then rest + [e] else rest
  }

  /** A symbol's lot depends only on its own trades: everything else can be removed from the history, so
      any interleaving with other symbols gives the same lot. */
  lemma {:induction false} SymbolsAreIndependent(h: seq<Entry>, s: string)
    ensures At(Replay(h).lots, s) == At(Replay(Only(h, s)).lots, s)
  {
    if h != [] {
      var p, e := h[..|h| - 1], h[|h| - 1];
      SymbolsAreIndependent(p, s);
      ReplaySnoc(Only(p, s), e);
      var a, b := Replay(p), Replay(Only(p, s));
      match e {
        case Restart =>
          RoundedAt(a.lots, s);
          RoundedAt(b.lots, s);
          hide RoundLot;
        case Handled(ev, stale) =>
          if !stale {
            FoldEventAt(a, ev, s);
            FoldEventAt(b, ev, s);
            hide FoldEvent, Bought, Sold;
          }
      }
    }
  }
}
