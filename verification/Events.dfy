/** Logged events and the cursor that orders them. */
module Events {
  import opened Positions

  /** Ingestion refuses prices that are not positive. */
  type Price = p: real | p > 0.0
    witness 1.0

  datatype Payload = TradeExecuted(trade: Trade) | PriceUpdated(symbol: string, price: Price)

  /** time is in nanoseconds since the zero time; id is the UUID read as a big-endian number, 0 being the
      nil UUID (module Uuids proves that this reading keeps the order). key is the idempotency key. */
  datatype Envelope = Envelope(time: int, id: nat, key: string, payload: Payload)

  /** Ingestion refuses the nil event id. */
  type Event = e: Envelope | e.id != 0
    witness Envelope(0, 1, "", PriceUpdated("", 1.0))

  datatype Cursor = Cursor(time: int, id: nat) {
    /** The zero cursor stands for "nothing applied yet". */
    predicate IsZero() {
      id == 0 && time == 0
    }

    predicate Before(other: Cursor) {
      time < other.time || (time == other.time && id < other.id)
    }
  }

  const ZERO_CURSOR := Cursor(0, 0)

  function CursorOf(ev: Event): (c: Cursor)
    ensures !c.IsZero()
  {
    Cursor(ev.time, ev.id)
  }

  /** The row filter of a fetch: everything when the cursor is zero, else what is strictly behind it. */
  predicate After(cur: Cursor, ev: Event) {
    cur.IsZero() || cur.Before(CursorOf(ev))
  }

  predicate InOrder(a: Event, b: Event) {
    CursorOf(a).Before(CursorOf(b))
  }

  predicate Sorted(es: seq<Event>) {
    forall i, j :: 0 <= i < j < |es| ==> InOrder(es[i], es[j])
  }
}
