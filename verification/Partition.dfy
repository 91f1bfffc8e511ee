/** One portfolio partition as a state machine: the durable store, the in-memory worker that drives it, and
    everything that can happen between them.

    Each database transaction is one atomic action; appends may happen between any two actions of the
    worker, and the worker may crash between any two actions. A transaction may commit, fail, or commit
    while the worker is told that it failed. */
module Partition {
  import opened Positions
  import opened Events
  import opened EventTable
  import opened History
  import opened Watermark

  datatype Snapshot = Snapshot(asOf: Cursor, lots: Lots)

  /** The tables events, projection_cursor, positions_projection, dlq_events and portfolio_snapshots,
      restricted to one portfolio. Events and snapshots are listed in cursor order. */
  datatype Store = Store(
    log: seq<Event>, cursor: Cursor, rows: Lots, dlq: seq<DeadLetter>, snapshots: seq<Snapshot>)

  /** todo is the rest of the page being applied; pending are the events already applied in memory but not
      flushed; behind says that a failed flush or dead-letter left this worker's memory out of step. */
  datatype Worker =
    | Down
    | Up(lots: Lots, cur: Cursor, todo: seq<Event>, pending: seq<Event>, behind: bool)

  /** history, missed and torn only record what happened: the events handled by committed transactions in
      order, the logged events the cursor has passed without handling them, and whether a worker that was
      kept after a failed transaction has fetched again. */
  datatype World = World(store: Store, worker: Worker, history: seq<Entry>, missed: set<Event>, torn: bool)

  const EMPTY_STORE := Store([], ZERO_CURSOR, map[], [], [])

  const START := World(EMPTY_STORE, Down, [], {}, false)

  datatype Commit = Committed | Failed | Unacknowledged

  datatype Action =
    | Append(ev: Event)
    | Rebuild(snapshotReadable: bool)
    | Fetch(cutoff: int, watermark: int)
    | ApplyNext
    | Refuse
    | Flush(outcome: Commit)
    | DeadLetterNext(stale: bool, outcome: Commit)
    | Checkpoint
    | Crash

  // ----- transactions -----

  /** Idempotent insert: a clash with a stored row inserts nothing. */
  function Appended(st: Store, ev: Event): Store {
    if exists e :: e in st.log && Clash(e, ev) then st else st.(log := Insert(st.log, ev))
  }

  function Touched(events: seq<Event>): set<string> {
    set e | e in events && e.payload.TradeExecuted? :: e.payload.trade.symbol
  }

  /** The row written for a lot; a flat lot that realized nothing has its row deleted. */
  predicate HasRow(lot: Lot) {
    lot.qty != 0.0 || lot.realized != 0.0
  }

  function RowOf(lot: Lot): Lot {
    if lot.qty == 0.0 then RoundLot(PositionLot(0.0, 0.0, lot.realized)) else RoundLot(lot)
  }

  /** positions_projection after writing the touched symbols from the in-memory lots. */
  function WriteRows(rows: Lots, touched: set<string>, lots: Lots): Lots {
    map s | s in rows.Keys + touched && (s in touched ==> HasRow(At(lots, s)))
      :: if s in touched then RowOf(At(lots, s)) else rows[s]
  }

  function BatchApplied(st: Store, applied: seq<Event>, lots: Lots): Store
    requires applied != []
  {
    st.(rows := WriteRows(st.rows, Touched(applied), lots), cursor := CursorOf(applied[|applied| - 1]))
  }

  function DeadLettered(st: Store, ev: Event, reason: Reason): Store {
    st.(dlq := st.dlq + [DeadLetter(ev, reason)], cursor := CursorOf(ev))
  }

  /** One snapshot per checkpoint: a retry for the same cursor inserts nothing. */
  function InsertSnapshot(snapshots: seq<Snapshot>, sn: Snapshot): seq<Snapshot> {
    if snapshots == [] || sn.asOf.Before(snapshots[0].asOf) then [sn] + snapshots
    else if sn.asOf == snapshots[0].asOf then snapshots
    else [snapshots[0]] + InsertSnapshot(snapshots[1..], sn)
  }

  /** Start-up: the latest snapshot when it is aligned with the cursor, else the projection rows, else a
      full replay. */
  function Loaded(st: Store, snapshotReadable: bool): Worker {
    if snapshotReadable && st.snapshots != [] &&
       var asOf := st.snapshots[|st.snapshots| - 1].asOf;
       !asOf.IsZero() && (st.cursor.IsZero() || asOf == st.cursor)
    then
      var sn := st.snapshots[|st.snapshots| - 1];
      Up(sn.lots, sn.asOf, [], [], false)
    else if st.cursor.IsZero() then Up(map[], ZERO_CURSOR, st.log, [], false)
    else Up(st.rows, st.cursor, [], [], false)
  }

  // ----- steps -----

  /** Logged events that a move of the cursor jumps over. */
  function Skipped(log: seq<Event>, from: Cursor, to: Cursor, batch: seq<Event>): set<Event> {
    set e | e in log && After(from, e) && !After(to, e) && e !in batch
  }

  /** A transaction that handles batch commits. */
  function Commits(w: World, st: Store, entries: seq<Entry>, batch: seq<Event>): World {
    w.(store := st,
       history := w.history + entries,
       missed := w.missed + Skipped(w.store.log, w.store.cursor, st.cursor, batch))
  }

  function Handles(events: seq<Event>): seq<Entry> {
    seq(|events|, i requires 0 <= i < |events| => Handled(events[i], false))
  }

  /** The worker after its transaction was reported as failed: it drops the page and is kept. */
  function Abandon(wk: Worker, behind: bool): Worker
    requires wk.Up?
  {
    wk.(todo := [], pending := [], behind := behind)
  }

  predicate Enabled(w: World, a: Action) {
    match a
    case Append(_) => true
    case Crash => true
    case Rebuild(_) => w.worker.Down?
    case Fetch(_, _) => w.worker.Up? && w.worker.todo == [] && w.worker.pending == []
    case ApplyNext => w.worker.Up? && w.worker.todo != [] && ApplyEvent(w.worker.lots, w.worker.todo[0]).Applied?
    case Refuse =>
      w.worker.Up? && w.worker.todo != [] && w.worker.pending == [] &&
      ApplyEvent(w.worker.lots, w.worker.todo[0]).InvalidSide?
    case Flush(_) => w.worker.Up? && w.worker.pending != []
    case DeadLetterNext(stale, _) =>
      w.worker.Up? && w.worker.todo != [] && w.worker.pending == [] &&
      (stale || ApplyEvent(w.worker.lots, w.worker.todo[0]).Underflow?)
    case Checkpoint =>
      w.worker.Up? && w.worker.pending == [] && !w.worker.behind &&
      w.worker.cur == w.store.cursor && !w.store.cursor.IsZero()
  }

  /** An action that is not enabled does nothing. */
  function Next(w: World, a: Action): World {
    if !Enabled(w, a) then w
    else
      match a
      case Append(ev) =>
        var st := Appended(w.store, ev);
        w.(store := st,
           missed := if st != w.store && !After(w.store.cursor, ev) then w.missed + {ev} else w.missed)
      case Crash => w.(worker := Down)
      case Rebuild(readable) =>
        w.(worker := Loaded(w.store, readable), history := w.history + [Restart])
      case Fetch(cutoff, watermark) =>
        var page := Take(Behind(w.store.log, w.worker.cur), PAGE);
        w.(worker := w.worker.(todo := EligibleBatch(page, cutoff, watermark, PAGE), behind := false),
           torn := w.torn || w.worker.behind)
      case ApplyNext =>
        var ev := w.worker.todo[0];
        w.(worker := w.worker.(
             lots := ApplyEvent(w.worker.lots, ev).lots,
             pending := w.worker.pending + [ev],
             todo := w.worker.todo[1..]))
      case Refuse => w.(worker := Abandon(w.worker, w.worker.behind))
      case Flush(outcome) => Flushed(w, outcome)
      case DeadLetterNext(stale, outcome) => DeadLetteredNext(w, stale, outcome)
      case Checkpoint =>
        w.(store := w.store.(snapshots :=
             InsertSnapshot(w.store.snapshots, Snapshot(w.worker.cur, Rounded(w.worker.lots)))))
  }

  function Flushed(w: World, outcome: Commit): World
    requires w.worker.Up? && w.worker.pending != []
  {
    var wk := w.worker;
    var done := Commits(w, BatchApplied(w.store, wk.pending, wk.lots), Handles(wk.pending), wk.pending);
    match outcome
    case Committed => done.(worker := wk.(cur := done.store.cursor, pending := []))
    case Failed => w.(worker := Abandon(wk, true))
    case Unacknowledged => done.(worker := Abandon(wk, true))
  }

  function DeadLetteredNext(w: World, stale: bool, outcome: Commit): World
    requires w.worker.Up? && w.worker.todo != []
  {
    var wk := w.worker;
    var ev := wk.todo[0];
    var st := DeadLettered(w.store, ev, if stale then EventTooStale else PositionUnderflow);
    var done := Commits(w, st, [Handled(ev, stale)], [ev]);
    match outcome
    case Committed => done.(worker := wk.(cur := CursorOf(ev), todo := wk.todo[1..]))
    case Failed => w.(worker := Abandon(wk, wk.behind))
    case Unacknowledged => done.(worker := Abandon(wk, true))
  }

  function Run(w: World, actions: seq<Action>): World {
    if actions == [] then w else Next(Run(w, actions[..|actions| - 1]), actions[|actions| - 1])
  }

  lemma {:induction false} RunConcat(w: World, a: seq<Action>, b: seq<Action>)
    ensures Run(w, a + b) == Run(Run(w, a), b)
  {
    if b == [] {
      assert a + b == a;
    } else {
      var p := b[..|b| - 1];
      RunConcat(w, a, p);
      assert (a + b)[..|a + b| - 1] == a + p;
    }
  }
}
