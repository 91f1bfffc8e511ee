/** The store and the worker of one portfolio partition as mutable objects.

    Every method is proved against the state machine of module Partition: it returns the trace of actions it
    took, and the state it leaves is the state the machine reaches by that trace. So all theorems about runs
    apply to whatever the methods do, for any placement of database failures. */
module TradeWorker {
  import opened Positions
  import opened Events
  import opened EventTable
  import opened History
  import opened Watermark
  import opened Pump
  import opened Rounds
  import opened Clock
  import opened Partition
  import opened Refinement
  import opened Runs
  import opened Arrival
  import opened Pages

  /** The tables of one portfolio. world is the machine state the tables belong to. */
  class PartitionStore {
    const env: Surroundings
    var log: seq<Event>
    var cursor: Cursor
    var rows: Lots
    var dlq: seq<DeadLetter>
    var snapshots: seq<Snapshot>
    ghost var world: World

    constructor (env: Surroundings)
      ensures Contents() == EMPTY_STORE && world == START && this.env == env
    {
      this.env := env;
      log, cursor, rows, dlq, snapshots := [], ZERO_CURSOR, map[], [], [];
      world := START;
    }

    function Contents(): Store
      reads this
    {
      Store(log, cursor, rows, dlq, snapshots)
    }

    /** Inserts the event unless a stored row has its event id or its idempotency key. The answer carries
        the stored id when the key is known; an id clash under a new key is an error. */
    method Append(ev: Event) returns (id: nat, inserted: bool, failed: bool)
      modifies `log
      ensures Contents() == Appended(old(Contents()), ev)
      ensures inserted ==> id == ev.id && log == Insert(old(log), ev)
      ensures !inserted ==> log == old(log)
      ensures !inserted && !failed ==> exists e :: e in log && e.key == ev.key && e.id == id
      ensures failed ==> exists e :: e in log && e.id == ev.id
      ensures inserted <==> !(exists e :: e in old(log) && Clash(e, ev))
    {
      var i := 0;
      while i < |log|
        invariant 0 <= i <= |log|
        invariant forall e :: e in log[..i] ==> e.key != ev.key
        invariant log == old(log)
      {
        if log[i].key == ev.key {
          assert log[i] in log;
          return log[i].id, false, false;
        }
        i := i + 1;
      }
      assert log[..i] == log;
      if exists e :: e in log && e.id == ev.id {
        return 0, false, true;
      }
      log := Insert(log, ev);
      return ev.id, true, false;
    }

    method FetchAll() returns (events: seq<Event>)
      ensures events == log
    {
      events := log;
    }

    /** The next page: rows strictly behind the cursor, in order and within the limit. A row behind the cursor
        that is not returned lies behind the last one returned, and then the page is full. */
    method FetchAfter(after: Cursor, limit: nat) returns (events: seq<Event>)
      requires limit > 0 && Sorted(log)
      ensures events == Take(Behind(log, after), limit)
      ensures |events| <= limit && Sorted(events) && forall e :: e in events ==> e in log && After(after, e)
      ensures forall e :: e in log && After(after, e) && e !in events ==>
                |events| == limit && InOrder(events[limit - 1], e)
    {
      hide Behind, Take, After, Sorted;
      PageFacts(log, after, limit);
      events := Take(Behind(log, after), limit);
    }

    /** The greatest event time, or the zero time when there are no events. */
    method MaxEventTime() returns (t: int)
      requires Sorted(log)
      ensures t == MaxTime(log)
      ensures forall e :: e in log ==> e.time <= t
    {
      if log == [] {
        return 0;
      }
      var last := log[|log| - 1];
      forall e | e in log
        ensures e.time <= last.time
      {
        var i :| 0 <= i < |log| && log[i] == e;
        assert i < |log| - 1 ==> InOrder(log[i], last);
      }
      return last.time;
    }

    /** One transaction: the touched rows from the caller's lots, then the cursor. The work is done on a
        copy, so a transaction that does not commit changes nothing. */
    method ApplyBatch(applied: seq<Event>, lots: Lots) returns (err: bool, ghost fate: Commit)
      requires applied != []
      modifies `rows, `cursor, env`ops
      ensures env.ops == old(env.ops) + 1 && fate == env.outcomes(old(env.ops)) && (err <==> fate != Committed)
      ensures Contents() ==
              if fate == Failed then old(Contents()) else BatchApplied(old(Contents()), applied, lots)
    {
      var touched := TouchedSymbols(applied);
      var tx := WriteTouched(rows, touched, lots);
      var fateOfCommit := env.Attempt();
      fate := fateOfCommit;
      if fateOfCommit != Failed {
        rows, cursor := tx, CursorOf(applied[|applied| - 1]);
      }
      err := fateOfCommit != Committed;
    }

    /** One transaction: the dead letter, then the cursor. */
    method PersistApplyDLQ(ev: Event, reason: Reason) returns (err: bool, ghost fate: Commit)
      modifies `dlq, `cursor, env`ops
      ensures env.ops == old(env.ops) + 1 && fate == env.outcomes(old(env.ops)) && (err <==> fate != Committed)
      ensures Contents() == if fate == Failed then old(Contents()) else DeadLettered(old(Contents()), ev, reason)
    {
      var fateOfCommit := env.Attempt();
      fate := fateOfCommit;
      if fateOfCommit != Failed {
        dlq, cursor := dlq + [DeadLetter(ev, reason)], CursorOf(ev);
      }
      err := fateOfCommit != Committed;
    }

    /** One statement; it may fail without effect. Snapshots stay in strict cursor order, so there is at most one
        per cursor, and after a success there is one for this cursor. */
    method InsertPortfolioSnapshot(asOf: Cursor, body: Lots) returns (err: bool)
      modifies `snapshots, env`ops
      ensures env.ops == old(env.ops) + 1 && (err <==> env.outcomes(old(env.ops)) != Committed)
      ensures Contents() ==
              if err then old(Contents())
              else old(Contents()).(snapshots := InsertSnapshot(old(snapshots), Snapshot(asOf, body)))
      ensures SnapshotsSorted(old(snapshots)) ==> SnapshotsSorted(snapshots)
      ensures !err ==> exists sn :: sn in snapshots && sn.asOf == asOf
    {
      var outcome := env.Attempt();
      err := outcome != Committed;
      if !err {
        SnapshotInserted(snapshots, Snapshot(asOf, body));
        if SnapshotsSorted(snapshots) {
          InsertSnapshotFacts(snapshots, Snapshot(asOf, body));
        }
        hide InsertSnapshot, SnapshotsSorted;
        snapshots := InsertSnapshot(snapshots, Snapshot(asOf, body));
      }
    }
  }

  lemma {:induction false} SnapshotInserted(snapshots: seq<Snapshot>, sn: Snapshot)
    ensures exists x :: x in InsertSnapshot(snapshots, sn) && x.asOf == sn.asOf
  {
    var r := InsertSnapshot(snapshots, sn);
    if snapshots == [] || sn.asOf.Before(snapshots[0].asOf) || sn.asOf == snapshots[0].asOf {
      assert r[0] in r;
    } else {
      SnapshotInserted(snapshots[1..], sn);
      var x :| x in InsertSnapshot(snapshots[1..], sn) && x.asOf == sn.asOf;
      assert x in r;
    }
  }

  method TouchedSymbols(applied: seq<Event>) returns (touched: set<string>)
    ensures touched == Touched(applied)
  {
    touched := {};
    var i := 0;
    while i < |applied|
      invariant 0 <= i <= |applied|
      invariant touched == Touched(applied[..i])
    {
      if applied[i].payload.TradeExecuted? {
        touched := touched + {applied[i].payload.trade.symbol};
      }
      TouchedByOne(applied[i]);
      TouchedSnoc(applied[..i], applied[i]);
      assert applied[..i + 1] == applied[..i] + [applied[i]];
      i := i + 1;
    }
    assert applied[..i] == applied;
  }

  lemma TouchedByOne(ev: Event)
    ensures Touched([ev]) == if ev.payload.TradeExecuted? then {ev.payload.trade.symbol} else {}
  {
    assert [ev][0] == ev;
  }

  /** Upserts or deletes one row. */
  method WriteRow(rows: Lots, sym: string, lot: Lot) returns (tx: Lots)
    ensures tx == if HasRow(lot) then rows[sym := RowOf(lot)] else rows - {sym}
  {
    if lot.qty == 0.0 {
      if lot.realized == 0.0 {
        tx := rows - {sym};
      } else {
        tx := rows[sym := RoundLot(PositionLot(0.0, 0.0, lot.realized))];
      }
    } else {
      tx := rows[sym := RoundLot(lot)];
    }
  }

  method WriteTouched(rows: Lots, touched: set<string>, lots: Lots) returns (tx: Lots)
    ensures tx == WriteRows(rows, touched, lots)
  {
    tx := rows;
    var todo := touched;
    ghost var written: set<string> := {};
    WriteNoRows(rows, lots);
    hide WriteRows, HasRow, RowOf, At;
    while todo != {}
      invariant written + todo == touched
      invariant tx == WriteRows(rows, written, lots)
      decreases |todo|
    {
      var sym :| sym in todo;
      OneMoreRow(rows, written, lots, sym);
      tx := WriteRow(tx, sym, At(lots, sym));
      written := written + {sym};
      todo := todo - {sym};
    }
    assert written == touched;
  }

  lemma OneMoreRow(rows: Lots, touched: set<string>, lots: Lots, s: string)
    ensures var before, after := WriteRows(rows, touched, lots), WriteRows(rows, touched + {s}, lots);
            after == if HasRow(At(lots, s)) then before[s := RowOf(At(lots, s))] else before - {s}
  {
  }

  lemma WriteNoRows(rows: Lots, lots: Lots)
    ensures WriteRows(rows, {}, lots) == rows
  {
  }

  /** The worker that drives one partition. */
  class PartitionWorker {
    const store: PartitionStore
    const watermark: nat
    const maxEventAge: nat
    const snapshotMinEvents: nat
    const snapshotMinInterval: nat
    var book: PositionBook
    var cur: Cursor
    var appliedSinceSnapshot: nat
    var lastSnapshotAt: int

    constructor (store: PartitionStore, watermark: nat, maxEventAge: nat, snapshotMinEvents: nat, snapshotMinInterval: nat)
      modifies store.env`readings
      ensures this.store == store && fresh(book) && this.watermark == watermark && this.maxEventAge == maxEventAge
      ensures this.snapshotMinEvents == snapshotMinEvents && this.snapshotMinInterval == snapshotMinInterval
      ensures appliedSinceSnapshot == 0 && lastSnapshotAt == store.env.clock(old(store.env.readings))
    {
      this.store, this.watermark, this.maxEventAge := store, watermark, maxEventAge;
      this.snapshotMinEvents, this.snapshotMinInterval := snapshotMinEvents, snapshotMinInterval;
      book := new PositionBook();
      cur := ZERO_CURSOR;
      appliedSinceSnapshot := 0;
      new;
      lastSnapshotAt := store.env.Now();
    }

    /** The objects are in the machine state with this page and this pending batch. */
    ghost predicate At(todo: seq<Event>, pending: seq<Event>)
      reads this, store, book
    {
      store.world.store == store.Contents() &&
      store.world.worker.Up? &&
      store.world.worker == Up(book.bySymbol, cur, todo, pending, store.world.worker.behind)
    }

    /** The policy asks for a checkpoint: enough events since the last one, or enough time. */
    ghost predicate Due(events: nat, now: int)
      reads this
    {
      (snapshotMinEvents > 0 && events >= snapshotMinEvents) || (snapshotMinInterval > 0 && now - lastSnapshotAt >= snapshotMinInterval)
    }

    /** Best-effort checkpoint after a flush: when the policy asks for one, no operation fails and the stored cursor is
        the batch's last event, exactly one is written and the counting starts anew; else none is, and the events count. */
    method MaybeSnapshotAfterApply(applied: seq<Event>, ghost todo: seq<Event>) returns (ghost trace: seq<Action>)
      requires At(todo, []) && applied != [] && cur == CursorOf(applied[|applied| - 1]) && !store.world.worker.behind
      modifies `appliedSinceSnapshot, `lastSnapshotAt, store`snapshots, store`world, store.env
      ensures At(todo, []) && old(store.env.ops) <= store.env.ops && old(store.env.readings) <= store.env.readings
      ensures store.world == Run(old(store.world), trace) && NoStaleActions(trace)
      ensures store.world.history == old(store.world.history) && store.world.torn == old(store.world.torn)
      ensures !store.world.worker.behind
      ensures trace == [] || trace == [Checkpoint]
      ensures var events := old(appliedSinceSnapshot) + |applied|;
              var due := old(Due(events, store.env.clock(store.env.readings)));
              (trace == [Checkpoint] ==> due && store.cursor == CursorOf(applied[|applied| - 1])) &&
              (due && store.cursor == CursorOf(applied[|applied| - 1]) && !store.env.Faulted(old(store.env.ops), store.env.ops) ==>
                 trace == [Checkpoint]) &&
              (trace == [Checkpoint] ==> appliedSinceSnapshot == 0) &&
              (trace == [] && (snapshotMinEvents > 0 || snapshotMinInterval > 0) ==> appliedSinceSnapshot == events)
      ensures trace == [] ==> lastSnapshotAt == old(lastSnapshotAt)
    {
      hide SnapshotsSorted, InsertSnapshot, Rounded, NoStaleActions, Run, ApplyEvent, Next;
      trace := [];
      RunNothing(store.world);
      CheckpointIsNotStale();
      if snapshotMinEvents == 0 && snapshotMinInterval == 0 {
        return;
      }
      appliedSinceSnapshot := appliedSinceSnapshot + |applied|;
      var now := store.env.Now();
      var byN := snapshotMinEvents > 0 && appliedSinceSnapshot >= snapshotMinEvents;
      var byT := snapshotMinInterval > 0 && now - lastSnapshotAt >= snapshotMinInterval;
      if !byN && !byT {
        return;
      }
      var body := Rounded(book.bySymbol);
      var last := CursorOf(applied[|applied| - 1]);
      var outcome := store.env.Attempt();
      if outcome != Committed || last != store.cursor {
        return;
      }
      var err := store.InsertPortfolioSnapshot(last, body);
      if err {
        return;
      }
      CheckpointEffect(store.world);
      store.world := Next(store.world, Checkpoint);
      trace := [Checkpoint];
      RunOne(old(store.world), Checkpoint);
      appliedSinceSnapshot := 0;
      lastSnapshotAt := store.env.Now();
    }

    /** Commits the pending batch, and writes a checkpoint when one is due. When the transaction is reported as failed the
        page is given up and the worker stays as it is: its lots already contain the batch. */
    method FlushApplyBatch(okBatch: seq<Event>, ghost todo: seq<Event>) returns (err: bool, ghost trace: seq<Action>)
      requires At(todo, okBatch) && okBatch != [] && !store.world.worker.behind
      modifies `cur, `appliedSinceSnapshot, `lastSnapshotAt, store, store.env
      ensures old(store.env.ops) <= store.env.ops && old(store.env.readings) <= store.env.readings
      ensures err ==> store.env.Faulted(old(store.env.ops), store.env.ops)
      ensures store.world == Run(old(store.world), trace) && NoStaleActions(trace)
      ensures store.world.torn == old(store.world.torn)
      ensures err ==> At([], []) && store.world.worker.behind
      ensures !err ==> At(todo, []) && !store.world.worker.behind && cur == CursorOf(okBatch[|okBatch| - 1])
      ensures !err ==> store.world.history == old(store.world.history) + Handles(okBatch)
      ensures store.log == old(store.log)
      ensures !err && !store.env.Faulted(old(store.env.ops), store.env.ops) ==>
                var events := old(appliedSinceSnapshot) + |okBatch|;
                trace == [Flush(Committed)] + if old(Due(events, store.env.clock(store.env.readings))) then [Checkpoint] else []
    {
      hide ApplyEvent, Handles, NoStaleActions, Run, BatchApplied, Flushed;
      ghost var before := store.world;
      ghost var fate;
      FlushEffects(before);
      BatchCursor(store.Contents(), okBatch, book.bySymbol);
      err, fate := store.ApplyBatch(okBatch, book.bySymbol);
      store.world := Next(store.world, Flush(fate));
      trace := [Flush(fate)];
      FlushIsNotStale(fate);
      RunOne(before, Flush(fate));
      if err {
        return;
      }
      cur := CursorOf(okBatch[|okBatch| - 1]);
      ghost var more := MaybeSnapshotAfterApply(okBatch, todo);
      trace := Extend(before, trace, more);
      assert [Flush(Committed)] + [] == [Flush(Committed)];
    }

    /** Applies one event to the lots. */
    method ApplyInMemory(ev: Event, ghost todo: seq<Event>, ghost okBatch: seq<Event>)
      returns (r: TradeResult, ghost trace: seq<Action>)
      requires todo != [] && ev == todo[0] && At(todo, okBatch) && !store.world.worker.behind
      modifies book, store`world
      ensures match ApplyEvent(old(book.bySymbol), ev)
              case Applied(_) => r == Accepted && At(todo[1..], okBatch + [ev])
              case Underflow => r == Rejected(ErrPositionUnderflow) && At(todo, okBatch)
              case InvalidSide => r == Rejected(ErrValidation) && At(todo, okBatch)
      ensures !store.world.worker.behind && store.world.history == old(store.world.history)
      ensures store.world.torn == old(store.world.torn)
      ensures book.bySymbol == if r == Accepted then ApplyEvent(old(book.bySymbol), ev).lots else old(book.bySymbol)
      ensures store.world == Run(old(store.world), trace) && NoStaleActions(trace)
    {
      ghost var before := store.world;
      r := Accepted;
      match ev.payload {
        case TradeExecuted(t) => r := book.ApplyTrade(t);
        case PriceUpdated(_, _) =>
      }
      trace := [];
      if r == Accepted {
        store.world := Next(store.world, ApplyNext);
        trace := [ApplyNext];
        RunOne(before, ApplyNext);
      }
      hide Execute;
    }

    /** Records the next event as dead; when that is reported as failed the page is given up. */
    method DeadLetterOne(ev: Event, stale: bool, ghost todo: seq<Event>) returns (err: bool, ghost trace: seq<Action>)
      requires todo != [] && ev == todo[0] && At(todo, []) && !store.world.worker.behind
      requires stale || ApplyEvent(book.bySymbol, ev).Underflow?
      modifies `cur, store`dlq, store`cursor, store`world, store.env`ops
      ensures old(store.env.ops) <= store.env.ops && (err ==> store.env.Faulted(old(store.env.ops), store.env.ops))
      ensures err ==> At([], [])
      ensures !err ==> At(todo[1..], []) && !store.world.worker.behind && cur == CursorOf(ev)
      ensures !err ==> store.world.history == old(store.world.history) + [Handled(ev, stale)]
      ensures store.world == Run(old(store.world), trace) && store.world.torn == old(store.world.torn)
      ensures !stale ==> NoStaleActions(trace)
    {
      ghost var before := store.world;
      ghost var fate;
      err, fate := store.PersistApplyDLQ(ev, if stale then EventTooStale else PositionUnderflow);
      ghost var a := DeadLetterNext(stale, fate);
      DeadLetterEffect(before, stale, fate);
      hide Next, ApplyEvent;
      store.world := Next(store.world, a);
      trace := [a];
      RunOne(before, a);
      if !err {
        cur := CursorOf(ev);
      }
    }

    /** Commits what is pending in front of an event that will not be applied. */
    method FlushPending(okBatch: seq<Event>, ghost todo: seq<Event>) returns (err: bool, ghost trace: seq<Action>)
      requires At(todo, okBatch) && !store.world.worker.behind
      modifies `cur, `appliedSinceSnapshot, `lastSnapshotAt, store, store.env
      ensures old(store.env.ops) <= store.env.ops && old(store.env.readings) <= store.env.readings
      ensures err ==> At([], []) && store.env.Faulted(old(store.env.ops), store.env.ops)
      ensures !err ==> At(todo, []) && !store.world.worker.behind
      ensures !err ==> store.world.history == old(store.world.history) + Handles(okBatch)
      ensures !err ==> cur == if okBatch == [] then old(cur) else CursorOf(okBatch[|okBatch| - 1])
      ensures store.world == Run(old(store.world), trace) && NoStaleActions(trace)
      ensures store.world.torn == old(store.world.torn) && store.log == old(store.log)
    {
      hide Run, ApplyEvent;
      if okBatch == [] {
        RunNothing(store.world);
        assert store.world.history + Handles([]) == store.world.history;
        return false, [];
      }
      err, trace := FlushApplyBatch(okBatch, todo);
    }

    /** An event that is not applied: dead-lettered when it is stale or underflows, else the page is given
        up in front of it. */
    method SetAside(ev: Event, stale: bool, ghost todo: seq<Event>) returns (err: bool, ghost trace: seq<Action>)
      requires todo != [] && ev == todo[0] && At(todo, []) && !store.world.worker.behind
      requires stale || !ApplyEvent(book.bySymbol, ev).Applied?
      modifies `cur, store`dlq, store`cursor, store`world, store.env`ops
      ensures old(store.env.ops) <= store.env.ops
      ensures err ==> At([], []) && (store.env.Faulted(old(store.env.ops), store.env.ops) || !NoUnknownSide([ev]))
      ensures !err ==> At(todo[1..], []) && !store.world.worker.behind && cur == CursorOf(ev)
      ensures !err ==> store.world.history == old(store.world.history) + [Handled(ev, stale)]
      ensures store.world == Run(old(store.world), trace) && store.world.torn == old(store.world.torn)
      ensures !stale ==> NoStaleActions(trace)
    {
      KnownUnlessRefused(book.bySymbol, ev);
      if !stale && ApplyEvent(book.bySymbol, ev).InvalidSide? {
        RunOne(store.world, Refuse);
        store.world := Next(store.world, Refuse);
        return true, [Refuse];
      }
      err, trace := DeadLetterOne(ev, stale, todo);
    }

    /** Handles the next event of a page: into the pending batch when it is fresh by the clock and applies, else into the
        dead letters behind a flush of the batch. It fails only after a failed operation or at a refused side. */
    method HandleOne(ev: Event, okBatch: seq<Event>, ghost todo: seq<Event>)
      returns (err: bool, okBatch': seq<Event>, ghost stale: bool, ghost trace: seq<Action>)
      requires todo != [] && ev == todo[0] && At(todo, okBatch) && !store.world.worker.behind
      modifies `cur, `appliedSinceSnapshot, `lastSnapshotAt, store, store.env, book
      ensures old(store.env.ops) <= store.env.ops && old(store.env.readings) < store.env.readings
      ensures stale <==> maxEventAge > 0 && store.env.clock(old(store.env.readings)) - ev.time > maxEventAge
      ensures err ==> At([], []) && (store.env.Faulted(old(store.env.ops), store.env.ops) || !NoUnknownSide([ev]))
      ensures !err ==> At(todo[1..], okBatch') && !store.world.worker.behind
      ensures !err ==>
                store.world.history + Handles(okBatch') == old(store.world.history) + Handles(okBatch) + [Handled(ev, stale)]
      ensures !err && okBatch' == [] ==> cur == CursorOf(ev)
      ensures !err && okBatch' != [] ==> okBatch'[|okBatch'| - 1] == ev
      ensures store.world == Run(old(store.world), trace) && store.world.torn == old(store.world.torn)
      ensures maxEventAge == 0 ==> NoStaleActions(trace)
      ensures store.log == old(store.log)
    {
      ghost var w0 := store.world;
      var now := store.env.Now();
      var tooStale := TooStale(ev, maxEventAge, now);
      stale := tooStale;
      trace := [];
      hide ApplyEvent, Next, NoStaleActions, Handles, Run, NoUnknownSide;
      RunNothing(w0);
      CheckpointIsNotStale();
      if !tooStale {
        var r;
        r, trace := ApplyInMemory(ev, todo, okBatch);
        if r == Accepted {
          HandlesSnoc(okBatch, ev);
          assert w0.history + (Handles(okBatch) + [Handled(ev, false)]) == w0.history + Handles(okBatch) + [Handled(ev, false)];
          return false, okBatch + [ev], stale, trace;
        }
      }
      ghost var more;
      okBatch' := [];
      err, more := FlushPending(okBatch, todo);
      trace := Extend(w0, trace, more);
      if err {
        return;
      }
      err, more := SetAside(ev, tooStale, todo);
      trace := Extend(w0, trace, more);
      HandlesNothing();
      assert store.world.history + [] == store.world.history;
    }

    /** Applies a page in order: batches of applied events are flushed at the end and before every dead letter. It fails
        only after a failed operation or at a refused side. When it succeeds, exactly the page was handled, each event
        as the clock judged it. */
    method ApplyEligible(eligible: seq<Event>) returns (err: bool, ghost stales: seq<bool>, ghost trace: seq<Action>)
      requires At(eligible, []) && !store.world.worker.behind
      modifies `cur, `appliedSinceSnapshot, `lastSnapshotAt, store, store.env, book
      ensures At([], []) && old(store.env.ops) <= store.env.ops && old(store.env.readings) <= store.env.readings
      ensures err ==> store.env.Faulted(old(store.env.ops), store.env.ops) || !NoUnknownSide(eligible)
      ensures store.world == Run(old(store.world), trace) && store.world.torn == old(store.world.torn)
      ensures maxEventAge == 0 ==> NoStaleActions(trace)
      ensures !err ==>
                |stales| == |eligible| && store.world.history == old(store.world.history) + Entries(eligible, stales) &&
                Judged(store.env, maxEventAge, eligible, stales, old(store.env.readings), store.env.readings)
      ensures !err ==> EventsOf(store.world.history) == old(EventsOf(store.world.history)) + eligible
      ensures !err ==> !store.world.worker.behind &&
                       cur == if eligible == [] then old(cur) else CursorOf(eligible[|eligible| - 1])
      ensures store.log == old(store.log)
    {
      hide Run, NoStaleActions, EventsOf, ApplyEvent, Next, Handles, Entries, NoUnknownSide, Judged;
      var okBatch: seq<Event> := [];
      ghost var w0 := store.world;
      ghost var more;
      trace, stales := [], [];
      RunNothing(w0);
      CheckpointIsNotStale();
      HandlesNothing();
      EntriesNothing();
      NothingJudged(store.env, maxEventAge, eligible, store.env.readings);
      var i := 0;
      assert eligible[0..] == eligible && eligible[..0] == [];
      while i < |eligible|
        invariant 0 <= i <= |eligible| && |stales| == i
        invariant At(eligible[i..], okBatch) && !store.world.worker.behind
        invariant old(store.env.ops) <= store.env.ops && old(store.env.readings) <= store.env.readings
        invariant store.world == Run(w0, trace) && store.world.torn == w0.torn
        invariant maxEventAge == 0 ==> NoStaleActions(trace)
        invariant store.world.history + Handles(okBatch) == w0.history + Entries(eligible[..i], stales)
        invariant Judged(store.env, maxEventAge, eligible, stales, old(store.env.readings), store.env.readings)
        invariant okBatch == [] ==> cur == if i == 0 then old(cur) else CursorOf(eligible[i - 1])
        invariant okBatch != [] ==> i > 0 && okBatch[|okBatch| - 1] == eligible[i - 1]
        invariant store.log == old(store.log)
      {
        assert eligible[i..][1..] == eligible[i + 1..];
        EntriesSnoc(w0.history, eligible, i, stales);
        KnownOne(eligible, i);
        ghost var s, n := false, store.env.readings;
        err, okBatch, s, more := HandleOne(eligible[i], okBatch, eligible[i..]);
        trace := Extend(w0, trace, more);
        if err {
          return;
        }
        JudgedNext(store.env, maxEventAge, eligible, stales, old(store.env.readings), s, n, store.env.readings);
        stales := stales + [s];
        i := i + 1;
      }
      assert eligible[..i] == eligible && eligible[i..] == [];
      err := false;
      if okBatch != [] {
        ghost var n := store.env.readings;
        err, more := FlushApplyBatch(okBatch, []);
        trace := Extend(w0, trace, more);
        JudgedLater(store.env, maxEventAge, eligible, stales, old(store.env.readings), n, store.env.readings);
      } else {
        assert store.world.history + [] == store.world.history;
      }
      EventsOfEntries(w0.history, eligible, stales);
    }

    /** Reads the next page and cuts it at the watermark; full says whether a whole full page may be
        applied. */
    method ReadEligible() returns (eligible: seq<Event>, full: bool, ghost cutoff: int)
      requires Sorted(store.log)
      ensures eligible == EligibleBatch(Take(Behind(store.log, cur), PAGE), cutoff, watermark, PAGE)
      ensures eligible == [] ==> RoundLeaves(store.log, cur, cur, false, watermark)
      ensures eligible != [] ==> RoundLeaves(store.log, cur, CursorOf(eligible[|eligible| - 1]), full, watermark)
    {
      hide EligibleBatch, Take, Behind, Sorted, RoundLeaves, MaxTime;
      var maxT := store.MaxEventTime();
      cutoff := maxT - watermark;
      var batch := store.FetchAfter(cur, PAGE);
      eligible := EligibleBatch(batch, maxT - watermark, watermark, PAGE);
      full := |eligible| == |batch| && |batch| == PAGE;
      RoundByRound(store.log, cur, watermark, batch, eligible);
    }

    /** The fetch as a step of the machine. */
    method FetchEligible() returns (eligible: seq<Event>, full: bool, ghost trace: seq<Action>)
      requires At([], []) && Sorted(store.log)
      modifies store`world
      ensures At(eligible, []) && !store.world.worker.behind
      ensures store.world.history == old(store.world.history)
      ensures store.world.torn == (old(store.world.torn) || old(store.world.worker.behind))
      ensures forall e :: e in eligible ==> e in store.log
      ensures store.world == Run(old(store.world), trace) && NoStaleActions(trace)
      ensures eligible == [] ==> RoundLeaves(store.log, cur, cur, false, watermark)
      ensures eligible != [] ==> RoundLeaves(store.log, cur, CursorOf(eligible[|eligible| - 1]), full, watermark)
    {
      hide EligibleBatch, Take, Run, Behind, Sorted, RoundLeaves, MaxTime, NoStaleActions;
      ghost var cutoff;
      eligible, full, cutoff := ReadEligible();
      EligibleLogged(store.log, cur, cutoff, watermark);
      FetchIsNotStale(cutoff, watermark);
      store.world := FetchWorld(store.world, cutoff, watermark);
      trace := [Fetch(cutoff, watermark)];
    }

    /** One round of a pump: fetch a page and apply what is eligible. It fails only after a failed operation or at a
        refused side. */
    method PumpPage() returns (err: bool, again: bool, ghost trace: seq<Action>)
      requires At([], []) && Sorted(store.log)
      modifies `cur, `appliedSinceSnapshot, `lastSnapshotAt, store, store.env, book
      ensures At([], []) && store.log == old(store.log) && old(store.env.ops) <= store.env.ops
      ensures err ==> store.env.Faulted(old(store.env.ops), store.env.ops) || !NoUnknownSide(store.log)
      ensures store.world == Run(old(store.world), trace)
      ensures !old(store.world.worker.behind) ==> store.world.torn == old(store.world.torn)
      ensures maxEventAge == 0 ==> NoStaleActions(trace)
      ensures !err ==> RoundLeaves(store.log, old(cur), cur, again, watermark) && !store.world.worker.behind
    {
      hide Run, RoundLeaves, NoStaleActions, EventsOf, NoUnknownSide, Sorted, Next, ApplyEvent, Entries;
      RunNothing(store.world);
      CheckpointIsNotStale();
      err, again, trace := true, false, [];
      var maxTimeRead := store.env.Attempt();
      if maxTimeRead != Committed {
        return;
      }
      var pageRead := store.env.Attempt();
      if pageRead != Committed {
        return;
      }
      err := false;
      ghost var w0 := store.world;
      var eligible, full;
      eligible, full, trace := FetchEligible();
      if eligible != [] {
        ghost var stales, more;
        KnownPart(store.log, eligible);
        err, stales, more := ApplyEligible(eligible);
        trace := Extend(w0, trace, more);
        again := full;
      }
    }

    /** Pumps page after page until one is not full or not wholly eligible. What a successful pump leaves behind the
        cursor is what module Pump says; it fails only after a failed operation or at a refused side. */
    method PumpAfterCursor() returns (err: bool, ghost trace: seq<Action>)
      requires At([], []) && Sorted(store.log)
      modifies `cur, `appliedSinceSnapshot, `lastSnapshotAt, store, store.env, book
      ensures At([], []) && store.log == old(store.log) && old(store.env.ops) <= store.env.ops
      ensures err ==> store.env.Faulted(old(store.env.ops), store.env.ops) || !NoUnknownSide(store.log)
      ensures store.world == Run(old(store.world), trace)
      ensures !old(store.world.worker.behind) ==> store.world.torn == old(store.world.torn)
      ensures maxEventAge == 0 ==> NoStaleActions(trace)
      ensures !err ==> PumpLeaves(store.log, old(cur), cur, false, watermark) && !store.world.worker.behind
    {
      ghost var w0 := store.world;
      ghost var cur0 := cur;
      ghost var more;
      trace, err := [], false;
      var again := true;
      RunNothing(w0);
      CheckpointIsNotStale();
      PumpStarts(store.log, cur0, watermark);
      hide Behind, Sorted, Run, NoStaleActions, EventsOf, MaxTime, PumpLeaves, RoundLeaves, NoUnknownSide, Next, ApplyEvent;
      while again
        invariant At([], []) && store.log == old(store.log) && !err && old(store.env.ops) <= store.env.ops
        invariant store.world == Run(w0, trace)
        invariant !w0.worker.behind ==> store.world.torn == w0.torn && !store.world.worker.behind
        invariant !again ==> !store.world.worker.behind
        invariant maxEventAge == 0 ==> NoStaleActions(trace)
        invariant PumpLeaves(store.log, cur0, cur, again, watermark)
        decreases again, |Behind(store.log, cur)|
      {
        ghost var cur1 := cur;
        err, again, more := PumpPage();
        trace := Extend(w0, trace, more);
        if err {
          return;
        }
        PumpOn(store.log, cur0, cur1, cur, again, watermark);
      }
    }

    /** Puts lots and cursor where the source says, which is where the machine's start-up puts them. */
    method Load(source: Source, ghost readable: bool) returns (ghost trace: seq<Action>)
      requires store.world.store == store.Contents() && store.world.worker == Down
      requires source == SourceOf(store.snapshots, store.cursor, readable)
      modifies `book, `cur, store`world
      ensures fresh(book) && trace == [Action.Rebuild(readable)] && NoStaleActions(trace)
      ensures store.world == Run(old(store.world), trace) == Next(old(store.world), Action.Rebuild(readable))
      ensures At(if source == FromLog then store.log else [], []) && !store.world.worker.behind
      ensures source == FromLog ==> book.bySymbol == map[] && cur == ZERO_CURSOR
      ensures store.world.torn == old(store.world.torn) && store.world.history == old(store.world.history) + [Restart]
    {
      hide Run, NoStaleActions, Loaded, ApplyEvent;
      LoadedCases(store.world, readable);
      RunOne(store.world, Action.Rebuild(readable));
      RebuildIsNotStale(readable);
      trace := [Action.Rebuild(readable)];
      hide Next;
      if source == FromSnapshot {
        var sn := store.snapshots[|store.snapshots| - 1];
        book := new PositionBook.FromLots(sn.lots);
        cur := sn.asOf;
      } else if source == FromLog {
        book := new PositionBook();
        cur := ZERO_CURSOR;
      } else {
        book := new PositionBook.FromLots(store.rows);
        cur := store.cursor;
      }
      store.world := Next(store.world, Action.Rebuild(readable));
    }

    /** The reads of a start-up. An unreadable snapshot is no failure. */
    method ReadSource() returns (err: bool, source: Source, ghost readable: bool)
      modifies store.env`ops
      ensures old(store.env.ops) <= store.env.ops
      ensures err ==> store.env.Faulted(old(store.env.ops), store.env.ops)
      ensures !err ==> source == SourceOf(store.snapshots, store.cursor, readable)
    {
      err, source, readable := true, FromLog, false;
      var cursorRead := store.env.Attempt();
      if cursorRead != Committed {
        return;
      }
      var snapshotRead := store.env.Attempt();
      readable := snapshotRead == Committed;
      source := SourceOf(store.snapshots, store.cursor, snapshotRead == Committed);
      if source != FromSnapshot {
        var rest := store.env.Attempt();
        if rest != Committed {
          return;
        }
      }
      err := false;
    }

    /** Loads lots and cursor from the latest aligned snapshot, else from the projection, else nothing, and applies what
        lies behind. Unless an operation fails or a side is refused it succeeds, and leaves nothing of a log that was
        replayed in full, or what a pump leaves. */
    method Rebuild() returns (err: bool, ghost trace: seq<Action>)
      requires store.world.store == store.Contents() && store.world.worker == Down && Sorted(store.log)
      modifies this, store, store.env
      ensures fresh(book) || book == old(book)
      ensures store.world.store == store.Contents() && store.log == old(store.log) && old(store.env.ops) <= store.env.ops
      ensures err ==> store.env.Faulted(old(store.env.ops), store.env.ops) || !NoUnknownSide(store.log)
      ensures !err ==> At([], []) && trace != [] && !store.world.worker.behind
      ensures !err ==> StartedUp(Next(old(store.world), trace[0]).worker, store.log, cur, watermark)
      ensures err ==> store.world.worker == Down || At([], [])
      ensures if trace == [] then err && store.world == old(store.world) else trace[0].Rebuild?
      ensures store.world == Run(old(store.world), trace) && store.world.torn == old(store.world.torn)
      ensures maxEventAge == 0 ==> NoStaleActions(trace)
    {
      hide Loaded, Run, NoStaleActions, EventsOf, Next, PumpLeaves, Sorted, ApplyEvent, NoUnknownSide, StartedUp, Entries;
      ghost var w0 := store.world;
      RunNothing(w0);
      CheckpointIsNotStale();
      trace := [];
      var source;
      ghost var readable, more;
      err, source, readable := ReadSource();
      if err {
        return;
      }
      trace := Load(source, readable);
      ghost var wk := store.world.worker;
      if source == FromLog {
        var events := store.FetchAll();
        ghost var stales;
        err, stales, more := ApplyEligible(events);
        StartedFromLog(store.log, watermark);
      } else {
        err, more := PumpAfterCursor();
        if !err {
          StartedBehind(wk, store.log, cur, watermark);
        }
      }
      trace := Extend(w0, trace, more);
    }
  }

  datatype Source = FromSnapshot | FromRows | FromLog

  /** The latest snapshot when it can be read and is aligned with the cursor, else the rows, else the log. */
  function SourceOf(snapshots: seq<Snapshot>, dbCur: Cursor, readable: bool): Source {
    if readable && snapshots != [] &&
       var asOf := snapshots[|snapshots| - 1].asOf;
       !asOf.IsZero() && (dbCur.IsZero() || asOf == dbCur)
    then FromSnapshot
    else if dbCur.IsZero() then FromLog
    else FromRows
  }

  /** A worker that was loaded like wk has been brought up to the cursor: nothing of a log that is replayed in full lies
      behind it, and otherwise what a pump leaves. */
  ghost predicate StartedUp(wk: Worker, log: seq<Event>, cur: Cursor, watermark: nat) {
    wk.Up? &&
    if wk.todo != [] then Behind(log, cur) == [] else PumpLeaves(log, wk.cur, cur, false, watermark)
  }

  lemma StartedFromLog(log: seq<Event>, watermark: nat)
    requires Sorted(log)
    ensures StartedUp(Up(map[], ZERO_CURSOR, log, [], false), log, if log == [] then ZERO_CURSOR else CursorOf(log[|log| - 1]), watermark)
  {
    if log == [] {
      RestOfNothing(MaxTime(log) - watermark, watermark);
    } else {
      CursorPassesBatch(log);
      NothingLiesBehind(log, CursorOf(log[|log| - 1]));
    }
    hide Rest, Sorted;
  }

  lemma StartedBehind(wk: Worker, log: seq<Event>, cur: Cursor, watermark: nat)
    requires wk.Up? && wk.todo == [] && PumpLeaves(log, wk.cur, cur, false, watermark)
    ensures StartedUp(wk, log, cur, watermark)
  {
  }

  lemma {:induction false} NothingLiesBehind(log: seq<Event>, cur: Cursor)
    requires forall e :: e in log ==> !After(cur, e)
    ensures Behind(log, cur) == []
  {
    hide After;
    if log != [] {
      assert log[0] in log;
      assert forall e :: e in log[1..] ==> e in log;
      NothingLiesBehind(log[1..], cur);
    }
  }

  // ----- what the methods use of histories -----

  function Entries(events: seq<Event>, stales: seq<bool>): seq<Entry>
    requires |stales| == |events|
  {
    seq(|events|, i requires 0 <= i < |events| => Handled(events[i], stales[i]))
  }

  lemma HandlesNothing()
    ensures Handles([]) == []
  {
  }

  lemma EntriesNothing()
    ensures Entries([], []) == []
  {
  }

  lemma EntriesSnoc(h: seq<Entry>, events: seq<Event>, i: nat, stales: seq<bool>)
    requires i < |events| && |stales| == i
    ensures forall s :: h + Entries(events[..i + 1], stales + [s]) == h + Entries(events[..i], stales) + [Handled(events[i], s)]
  {
    forall s
      ensures h + Entries(events[..i + 1], stales + [s]) == h + Entries(events[..i], stales) + [Handled(events[i], s)]
    {
      assert Entries(events[..i + 1], stales + [s]) == Entries(events[..i], stales) + [Handled(events[i], s)];
    }
  }

  lemma {:induction false} EventsOfEntries(h: seq<Entry>, events: seq<Event>, stales: seq<bool>)
    ensures |stales| == |events| ==> EventsOf(h + Entries(events, stales)) == EventsOf(h) + events
  {
    if |stales| == |events| {
      if events == [] {
        assert h + Entries(events, stales) == h;
      } else {
        var n := |events| - 1;
        EventsOfEntries(h, events[..n], stales[..n]);
        assert h + Entries(events, stales) == h + Entries(events[..n], stales[..n]) + [Handled(events[n], stales[n])];
        ReplaySnoc(h + Entries(events[..n], stales[..n]), Handled(events[n], stales[n]));
        hide EventsOf, Entries, Replay;
        assert events == events[..n] + [events[n]];
      }
    }
  }

  lemma KnownUnlessRefused(lots: Lots, ev: Event)
    ensures NoUnknownSide([ev]) ==> !ApplyEvent(lots, ev).InvalidSide?
  {
    if NoUnknownSide([ev]) {
      assert [ev] + [] == [ev];
      FirstIsKnown(lots, ev, []);
    }
    hide ApplyEvent;
  }

  lemma KnownPart(log: seq<Event>, part: seq<Event>)
    requires forall e :: e in part ==> e in log
    ensures NoUnknownSide(log) ==> NoUnknownSide(part)
  {
  }

  lemma KnownOne(events: seq<Event>, i: nat)
    requires i < |events|
    ensures NoUnknownSide(events) ==> NoUnknownSide([events[i]])
  {
    assert events[i] in events;
  }

  lemma EligibleLogged(log: seq<Event>, cur: Cursor, cutoff: int, watermark: int)
    ensures forall e :: e in EligibleBatch(Take(Behind(log, cur), PAGE), cutoff, watermark, PAGE) ==> e in log
  {
    var all := Behind(log, cur);
    EligibleIsNext(all, cutoff, watermark);
    BehindFacts(log, cur);
    hide EligibleBatch, Take, Behind;
    var page := EligibleBatch(Take(all, PAGE), cutoff, watermark, PAGE);
    assert forall i :: 0 <= i < |page| ==> page[i] == all[i];
  }

  lemma FlushIsNotStale(fate: Commit)
    ensures NoStaleActions([Flush(fate)])
  {
  }

  lemma CheckpointEffect(w: World)
    requires w.worker.Up? && w.worker.pending == [] && !w.worker.behind && w.worker.cur == w.store.cursor
    requires !w.store.cursor.IsZero()
    ensures Next(w, Checkpoint) ==
            w.(store := w.store.(snapshots := InsertSnapshot(w.store.snapshots, Snapshot(w.worker.cur, Rounded(w.worker.lots)))))
  {
    hide InsertSnapshot, Rounded;
  }

  /** A flush, by its outcome. */
  lemma FlushEffects(w: World)
    requires w.worker.Up? && w.worker.pending != []
    ensures forall fate: Commit ::
              var wk, r := w.worker, Next(w, Flush(fate));
              r.store == (if fate == Failed then w.store else BatchApplied(w.store, wk.pending, wk.lots)) &&
              r.worker == (if fate == Committed then wk.(cur := CursorOf(wk.pending[|wk.pending| - 1]), pending := [])
                           else Abandon(wk, true)) &&
              r.torn == w.torn && (fate == Committed ==> r.history == w.history + Handles(wk.pending))
  {
    hide WriteRows, Touched, Skipped, Handles;
  }

  /** The three start-up sources, as the machine chooses them. */
  lemma LoadedCases(w: World, readable: bool)
    requires w.worker == Down
    ensures var st, r := w.store, Next(w, Action.Rebuild(readable));
            r == w.(worker := r.worker, history := w.history + [Restart]) &&
            match SourceOf(st.snapshots, st.cursor, readable)
            case FromSnapshot =>
              st.snapshots != [] && r.worker == Up(st.snapshots[|st.snapshots| - 1].lots, st.snapshots[|st.snapshots| - 1].asOf, [], [], false)
            case FromLog => r.worker == Up(map[], ZERO_CURSOR, st.log, [], false)
            case FromRows => r.worker == Up(st.rows, st.cursor, [], [], false)
  {
  }

  lemma RebuildIsNotStale(readable: bool)
    ensures NoStaleActions([Action.Rebuild(readable)])
  {
  }

  /** The pool's entry for one partition: its store and, when it is running, its worker. */
  class PartitionSlot {
    const store: PartitionStore
    const watermark: nat
    const maxEventAge: nat
    const snapshotMinEvents: nat
    const snapshotMinInterval: nat
    var worker: PartitionWorker?

    constructor (store: PartitionStore, watermark: nat, maxEventAge: nat, snapshotMinEvents: nat, snapshotMinInterval: nat)
      requires store.world == START && store.Contents() == EMPTY_STORE
      ensures Valid() && this.store == store && this.watermark == watermark && this.maxEventAge == maxEventAge
    {
      this.store, this.watermark, this.maxEventAge, worker := store, watermark, maxEventAge, null;
      this.snapshotMinEvents, this.snapshotMinInterval := snapshotMinEvents, snapshotMinInterval;
    }

    ghost predicate Valid()
      reads this, store, Footprint()
    {
      store.world.store == store.Contents() && Sorted(store.log) &&
      if worker == null then store.world.worker == Down
      else worker.store == store && worker.watermark == watermark && worker.maxEventAge == maxEventAge && worker.At([], [])
    }

    ghost function Footprint(): set<object?>
      reads this, worker
    {
      if worker == null then {} else {worker, worker.book}
    }

    /** One tick of the pool: start and rebuild a missing worker, and drop it when that fails; then pump. A worker whose
        pump fails is kept. The invariant of module Refinement survives unless such a worker fetches again after a
        transaction of it had failed. Unless an operation fails or a side is refused, a worker is running afterwards and
        has pumped from its cursor, or from where its start-up left it. */
    method Tick() returns (ghost from: Cursor, ghost trace: seq<Action>)
      requires Valid()
      modifies this, store, store.env, Footprint()
      ensures Valid() && store.log == old(store.log) && old(store.env.ops) <= store.env.ops
      ensures fresh(Footprint() - old(Footprint()))
      ensures store.world == Run(old(store.world), trace)
      ensures maxEventAge == 0 ==> NoStaleActions(trace)
      ensures Good(old(store.world)) && !store.world.torn ==> Good(store.world)
      ensures !Idle(old(store.world).worker) ==> store.world.torn == old(store.world.torn)
      ensures !store.env.Faulted(old(store.env.ops), store.env.ops) && NoUnknownSide(store.log) ==>
                worker != null && !store.world.worker.behind && PumpLeaves(store.log, from, worker.cur, false, watermark)
      ensures !store.env.Faulted(old(store.env.ops), store.env.ops) && NoUnknownSide(store.log) ==>
                if old(worker) != null then from == old(if worker != null then worker.cur else ZERO_CURSOR)
                else trace != [] && trace[0].Rebuild? &&
                     StartedUp(Next(old(store.world), trace[0]).worker, store.log, from, watermark)
    {
      hide Run, NoStaleActions, PumpLeaves, Good, Sorted, NoUnknownSide, StartedUp, Next;
      ghost var w0 := store.world;
      ghost var more;
      var err;
      if worker == null {
        worker := new PartitionWorker(store, watermark, maxEventAge, snapshotMinEvents, snapshotMinInterval);
        err, trace := worker.Rebuild();
        from := worker.cur;
        if err {
          trace := Extend(w0, trace, [Action.Crash]);
          RunOne(store.world, Action.Crash);
          CrashIsNotStale();
          CrashEffect(store.world);
          store.world := Next(store.world, Action.Crash);
          worker := null;
          KeepsGood(w0, trace);
          return;
        }
        err, more := worker.PumpAfterCursor();
        trace := Extend(w0, trace, more);
      } else {
        from := worker.cur;
        err, trace := worker.PumpAfterCursor();
      }
      KeepsGood(w0, trace);
    }

    /** The process stops: memory is gone. */
    method Crash()
      requires Valid()
      modifies this, store`world
      ensures Valid() && worker == null && store.world == Next(old(store.world), Action.Crash)
    {
      worker := null;
      store.world := Next(store.world, Action.Crash);
    }

    /** An event arrives. */
    method Append(ev: Event) returns (id: nat, inserted: bool, failed: bool)
      requires Valid()
      modifies store
      ensures Valid() && store.world == Next(old(store.world), Action.Append(ev))
      ensures !inserted && !failed ==> exists e :: e in store.log && e.key == ev.key && e.id == id
    {
      ghost var before := store.log;
      id, inserted, failed := store.Append(ev);
      store.world := Next(store.world, Action.Append(ev));
      if inserted {
        InsertKeepsOrder(before, ev);
      }
    }
  }

  /** A worker that was told of a failure and has not fetched since. */
  predicate Idle(wk: Worker) {
    wk.Up? && wk.behind
  }

  lemma CrashEffect(w: World)
    ensures Next(w, Action.Crash) == w.(worker := Down)
  {
  }

  lemma CrashIsNotStale()
    ensures NoStaleActions([Action.Crash])
  {
  }

  /** Two ticks without a failure, of a partition whose worker may have to be started, leave nothing of the log behind the
      stored cursor when fewer than 200 events behind the worker's cursor, or behind the one it is started from, are newer
      than the cutoff; and then every logged event was handled or missed. */
  method TwoTicks(slot: PartitionSlot) returns (ghost start: Cursor)
    requires slot.Valid() && Good(slot.store.world) && !slot.store.world.torn && !Idle(slot.store.world.worker)
    modifies slot, slot.store, slot.store.env, slot.Footprint()
    ensures slot.Valid() && slot.store.log == old(slot.store.log)
    ensures !slot.store.env.Faulted(old(slot.store.env.ops), slot.store.env.ops) && NoUnknownSide(slot.store.log) &&
            Few(slot.store.log, start, slot.watermark) ==>
              Good(slot.store.world) && !slot.store.world.torn && Behind(slot.store.log, slot.store.cursor) == [] &&
              forall e :: e in slot.store.log ==> e in EventsOf(slot.store.world.history) || e in slot.store.world.missed
    ensures (!slot.store.env.Faulted(old(slot.store.env.ops), slot.store.env.ops) && NoUnknownSide(slot.store.log) &&
             old(slot.worker) != null) ==>
              start == old(if slot.worker != null then slot.worker.cur else ZERO_CURSOR)
  {
    hide Run, NoStaleActions, PumpLeaves, Good, Sorted, NoUnknownSide, StartedUp, Next, Behind, Few;
    ghost var from, trace := slot.Tick();
    start := from;
    ghost var from2, trace2 := slot.Tick();
    if !slot.store.env.Faulted(old(slot.store.env.ops), slot.store.env.ops) && NoUnknownSide(slot.store.log) &&
       Few(slot.store.log, start, slot.watermark) {
      Drained(slot.store.log, start, from2, slot.worker.cur, slot.watermark);
      DrainedHandlesAll(slot.store.world, slot.worker.cur);
    }
  }

  lemma DrainedHandlesAll(w: World, cur: Cursor)
    requires Good(w) && w.worker.Up? && !w.worker.behind && w.worker.cur == cur && Behind(w.store.log, cur) == []
    ensures w.store.cursor == cur && forall e :: e in w.store.log ==> e in EventsOf(w.history) || e in w.missed
  {
    BehindFacts(w.store.log, cur);
    hide HistoryOk, ProjectionOk, SnapshotsOk, AppliedOnto, Behind, After, EventsOf;
  }

  lemma KeepsGood(w: World, trace: seq<Action>)
    ensures Good(w) && !Run(w, trace).torn ==> Good(Run(w, trace))
  {
    if Good(w) && !Run(w, trace).torn {
      RunKeeps(w, trace);
    }
  }

  lemma CheckpointIsNotStale()
    ensures NoStaleActions([Checkpoint]) && NoStaleActions([])
  {
  }

  lemma FetchIsNotStale(cutoff: int, watermark: int)
    ensures NoStaleActions([Fetch(cutoff, watermark)])
  {
  }

  /** The machine state after a fetch by an idle worker. */
  ghost function FetchWorld(w: World, cutoff: int, watermark: int): (r: World)
    requires w.worker.Up? && w.worker.todo == [] && w.worker.pending == []
    ensures r == Run(w, [Fetch(cutoff, watermark)])
    ensures r.store == w.store && r.history == w.history && r.torn == (w.torn || w.worker.behind)
    ensures r.worker == w.worker.(
              todo := EligibleBatch(Take(Behind(w.store.log, w.worker.cur), PAGE), cutoff, watermark, PAGE),
              behind := false)
  {
    RunOne(w, Fetch(cutoff, watermark));
    Next(w, Fetch(cutoff, watermark))
  }

  lemma DeadLetterEffect(w: World, stale: bool, fate: Commit)
    requires Enabled(w, DeadLetterNext(stale, fate)) && !w.worker.behind
    ensures var ev := w.worker.todo[0];
            var r := Next(w, DeadLetterNext(stale, fate));
            r.store == (if fate == Failed then w.store
                        else DeadLettered(w.store, ev, if stale then EventTooStale else PositionUnderflow)) &&
            r.worker == (if fate == Committed then w.worker.(cur := CursorOf(ev), todo := w.worker.todo[1..])
                         else Abandon(w.worker, fate != Failed)) &&
            r.torn == w.torn && (fate == Committed ==> r.history == w.history + [Handled(ev, stale)])
  {
    hide ApplyEvent, Skipped;
  }

  lemma RunNothing(w: World)
    ensures Run(w, []) == w
  {
  }

  lemma RunOne(w: World, a: Action)
    ensures Run(w, [a]) == Next(w, a)
  {
    hide Next;
    assert [a][..0] == [];
  }

  /** Two traces in sequence. */
  ghost function Extend(w: World, trace: seq<Action>, more: seq<Action>): (r: seq<Action>)
    ensures r == trace + more
    ensures Run(w, r) == Run(Run(w, trace), more)
    ensures NoStaleActions(trace) && NoStaleActions(more) ==> NoStaleActions(r)
  {
    RunConcat(w, trace, more);
    trace + more
  }
}
