/** What a sequence of handled events and restarts means for a portfolio, as one simple fold.

    A restart throws the in-memory lots away and reads back what was stored, so in the fold it rounds every
    lot to eight decimals. A handled event is either applied, or dead-lettered because it was too stale or
    because it would have made a quantity negative. */
module History {
  import opened Decimals
  import opened Positions
  import opened Events

  datatype Reason = PositionUnderflow | EventTooStale

  datatype DeadLetter = DeadLetter(ev: Event, reason: Reason)

  datatype Ledger = Ledger(lots: Lots, applied: seq<Event>, dlq: seq<DeadLetter>)

  const EMPTY := Ledger(map[], [], [])

  datatype Entry = Handled(ev: Event, stale: bool) | Restart

  /** Only trades change lots. */
  function ApplyEvent(lots: Lots, ev: Event): Outcome {
    match ev.payload
    case TradeExecuted(t) => Execute(lots, t)
    case PriceUpdated(_, _) => Applied(lots)
  }

  function RoundLot(lot: Lot): Lot {
    PositionLot(Round8(lot.qty), Round8(lot.avg), Round8(lot.realized))
  }

  /** The lots as the positions table and the snapshots hold them. */
  function Rounded(lots: Lots): Lots {
    map s | s in lots :: RoundLot(lots[s])
  }

  /** One event, underflows skipped and recorded. */
  function FoldEvent(l: Ledger, ev: Event): Ledger {
    match ApplyEvent(l.lots, ev)
    case Applied(lots) => l.(lots := lots, applied := l.applied + [ev])
    case Underflow => l.(dlq := l.dlq + [DeadLetter(ev, PositionUnderflow)])
    case InvalidSide => l
  }

  function FoldEntry(l: Ledger, e: Entry): Ledger {
    match e
    case Restart => l.(lots := Rounded(l.lots))
    case Handled(ev, stale) =>
      if stale then l.(dlq := l.dlq + [DeadLetter(ev, EventTooStale)]) else FoldEvent(l, ev)
  }

  /** The reference meaning of an event stream: fold the events in order. */
  function Fold(events: seq<Event>): Ledger {
    if events == [] then EMPTY else FoldEvent(Fold(events[..|events| - 1]), events[|events| - 1])
  }

  function Replay(h: seq<Entry>): Ledger {
    if h == [] then EMPTY else FoldEntry(Replay(h[..|h| - 1]), h[|h| - 1])
  }

  function EventsOf(h: seq<Entry>): seq<Event> {
    if h == [] then []
    else
      var rest := EventsOf(h[..|h| - 1]);
      match h[|h| - 1]
      case Handled(ev, _) => rest + [ev]
      case Restart => rest
  }

  function WithoutRestarts(h: seq<Entry>): seq<Entry> {
    if h == [] then []
    else
      var rest := WithoutRestarts(h[..|h| - 1]);
      if h[|h| - 1].Restart? then rest else rest + [h[|h| - 1]]
  }

  /** A restart after at least one event was handled. */
  predicate Interrupts(p: seq<Entry>, e: Entry) {
    e.Restart? && EventsOf(p) != []
  }

  /** How often the history was interrupted; the first start does not count. */
  function Restarts(h: seq<Entry>): nat {
    if h == [] then 0
    else Restarts(h[..|h| - 1]) + if Interrupts(h[..|h| - 1], h[|h| - 1]) then 1 else 0
  }

  predicate NoneStale(h: seq<Entry>) {
    forall e :: e in h && e.Handled? ==> !e.stale
  }

  lemma ReplaySnoc(h: seq<Entry>, e: Entry)
    ensures Replay(h + [e]) == FoldEntry(Replay(h), e)
    ensures EventsOf(h + [e]) == EventsOf(h) + if e.Handled? then [e.ev] else []
    ensures WithoutRestarts(h + [e]) == WithoutRestarts(h) + if e.Handled? then [e] else []
    ensures Restarts(h + [e]) == Restarts(h) + if Interrupts(h, e) then 1 else 0
  {
    assert (h + [e])[..|h|] == h;
  }

  /** Splitting off the last entry, for proofs by induction on a history. */
  lemma Unsnoc(h: seq<Entry>)
    requires h != []
    ensures h == h[..|h| - 1] + [h[|h| - 1]]
  {
  }

  lemma {:induction false} NoEventsNothingReplayed(h: seq<Entry>)
    requires EventsOf(h) == []
    ensures Replay(h) == EMPTY && Restarts(h) == 0
  {
    hide FoldEvent;
    if h != [] {
      NoEventsNothingReplayed(h[..|h| - 1]);
    }
  }

  /** Without interruption and stale events the history is the plain fold. */
  lemma {:induction false} ReplayIsFold(h: seq<Entry>)
    requires NoneStale(h) && Restarts(h) == 0
    ensures Replay(h) == Fold(EventsOf(h))
  {
    hide FoldEvent;
    if h != [] {
      var p := h[..|h| - 1];
      ReplayIsFold(p);
      var es := EventsOf(h);
      if h[|h| - 1].Restart? {
        NoEventsNothingReplayed(p);
      } else {
        assert es[..|es| - 1] == EventsOf(p);
      }
    }
  }

  lemma {:induction false} WithoutRestartsFacts(h: seq<Entry>)
    ensures Restarts(WithoutRestarts(h)) == 0
    ensures EventsOf(WithoutRestarts(h)) == EventsOf(h)
    ensures NoneStale(h) ==> NoneStale(WithoutRestarts(h))
  {
    if h != [] {
      Unsnoc(h);
      var p := h[..|h| - 1];
      WithoutRestartsFacts(p);
      if h[|h| - 1].Handled? {
        ReplaySnoc(WithoutRestarts(p), h[|h| - 1]);
      }
    }
  }

  lemma RoundedAt(lots: Lots, s: string)
    ensures At(Rounded(lots), s) == RoundLot(At(lots, s))
  {
    NearestFixesIntegers(0);
  }

  lemma {:induction false} RoundedIdempotent(lots: Lots)
    ensures Rounded(Rounded(lots)) == Rounded(lots)
  {
    hide RoundLot;
    forall s | s in lots
      ensures RoundLot(RoundLot(lots[s])) == RoundLot(lots[s])
    {
      RoundLotIdempotent(lots[s]);
    }
  }

  lemma RoundLotIdempotent(lot: Lot)
    ensures RoundLot(RoundLot(lot)) == RoundLot(lot)
  {
    Round8Idempotent(lot.qty);
    Round8Idempotent(lot.avg);
    Round8Idempotent(lot.realized);
    hide Round8;
  }

  // ----- restarts keep quantities -----

  predicate TradesSymbol(ev: Event, s: string) {
    ev.payload.TradeExecuted? && ev.payload.trade.symbol == s
  }

  /** Every traded quantity has at most eight decimals. */
  predicate EightDecimals(events: seq<Event>) {
    forall ev :: ev in events && ev.payload.TradeExecuted? ==> IsGrid8(ev.payload.trade.qty)
  }

  ghost predicate SameQuantities(a: Lots, b: Lots) {
    forall s :: At(a, s).qty == At(b, s).qty
  }

  ghost predicate GridQuantities(a: Lots) {
    forall s :: IsGrid8(At(a, s).qty)
  }

  lemma {:induction false} FoldEventKeepsAgreement(a: Ledger, b: Ledger, ev: Event)
    requires SameQuantities(a.lots, b.lots) && GridQuantities(a.lots)
    requires a.applied == b.applied && a.dlq == b.dlq
    requires ev.payload.TradeExecuted? ==> IsGrid8(ev.payload.trade.qty)
    ensures var x, y := FoldEvent(a, ev), FoldEvent(b, ev);
            SameQuantities(x.lots, y.lots) && GridQuantities(x.lots) && x.applied == y.applied && x.dlq == y.dlq
  {
    hide Round8, Div16, IsGrid8;
    if ev.payload.TradeExecuted? {
      var t := ev.payload.trade;
      Grid8Add(At(a.lots, t.symbol).qty, t.qty);
      Grid8Sub(At(a.lots, t.symbol).qty, t.qty);
    }
  }

  lemma {:induction false} RoundedKeepsGridQuantities(a: Lots)
    requires GridQuantities(a)
    ensures SameQuantities(Rounded(a), a)
  {
    hide Round8, IsGrid8;
    forall s
      ensures At(Rounded(a), s).qty == At(a, s).qty
    {
      RoundedAt(a, s);
      Round8FixesGrid(At(a, s).qty);
    }
  }

  /** Restarts change neither quantities nor what is applied or dead-lettered. */
  lemma {:induction false} RestartsKeepQuantities(h: seq<Entry>)
    requires EightDecimals(EventsOf(h))
    ensures var a, b := Replay(h), Replay(WithoutRestarts(h));
            SameQuantities(a.lots, b.lots) && GridQuantities(a.lots) && a.applied == b.applied && a.dlq == b.dlq
  {
    hide Round8, Div16;
    if h == [] {
      assert IsGrid8(0.0);
    } else {
      hide IsGrid8;
      var p, e := h[..|h| - 1], h[|h| - 1];
      RestartsKeepQuantities(p);
      match e {
        case Restart =>
          RoundedKeepsGridQuantities(Replay(p).lots);
        case Handled(ev, stale) =>
          ReplaySnoc(WithoutRestarts(p), e);
          assert ev in EventsOf(h);
          if !stale {
            FoldEventKeepsAgreement(Replay(p), Replay(WithoutRestarts(p)), ev);
          }
      }
    }
  }

  /** The same for one lot without any assumption: a restart keeps a quantity exactly when it has at most
      eight decimals. */
  lemma RestartKeepsQuantityIff(l: Ledger, s: string)
    ensures At(FoldEntry(l, Restart).lots, s).qty == At(l.lots, s).qty <==> IsGrid8(At(l.lots, s).qty)
  {
    hide Round8, IsGrid8;
    RoundedAt(l.lots, s);
    Round8ExactIff(At(l.lots, s).qty);
  }
}
