/** The worker of one price partition as a mutable object.

    A price worker keeps nothing in memory but its cursor, so a failed transaction costs nothing; one that had
    committed makes it commit a batch a second time. */
module PriceWorker {
  import opened Events
  import opened EventTable
  import opened History
  import opened Watermark
  import opened Partition
  import opened Refinement
  import opened Runs
  import opened Arrival
  import opened Losses
  import opened Rounds
  import opened Clock
  import opened Options
  import opened Prices
  import opened PriceLog

  // ----- the worker -----

  /** What is known of a page that has been fetched behind a cursor: it stays true when events arrive. */
  predicate PageOk(log: seq<Event>, cur: Cursor, page: seq<Event>) {
    Sorted(page) && AllAfter(cur, page) && forall e :: e in page ==> e in log
  }

  /** The worker's cursor after the events in done were settled. */
  function CursorAfter(cur: Cursor, done: seq<Event>): Cursor {
    if done == [] then cur else CursorOf(done[|done| - 1])
  }

  lemma PageOkSplit(log: seq<Event>, cur: Cursor, a: seq<Event>, b: seq<Event>)
    requires PageOk(log, cur, a + b)
    ensures PageOk(log, cur, a) && PageOk(log, CursorAfter(cur, a), b)
  {
    SplitSorted(a, b);
    if a != [] {
      RestBehindBatch(a, b);
    } else {
      assert a + b == b;
    }
    hide Sorted, After;
  }

  /** An event of the page is left out. */
  lemma PageOkWithout(log: seq<Event>, cur: Cursor, a: seq<Event>, ev: Event, b: seq<Event>)
    requires PageOk(log, cur, a + ([ev] + b))
    ensures PageOk(log, cur, a + b)
  {
    var x, y := a + ([ev] + b), a + b;
    forall i, j | 0 <= i < j < |y|
      ensures InOrder(y[i], y[j])
    {
      assert InOrder(x[if i < |a| then i else i + 1], x[if j < |a| then j else j + 1]);
    }
  }

  /** Every logged price event behind the cursor is in the page or behind all of it: committing the page in
      parts misses nothing. An arrival behind the page keeps this; one in front of the page's end ends it. */
  predicate Gapless(log: seq<Event>, cur: Cursor, page: seq<Event>) {
    forall e :: e in log && e.payload.PriceUpdated? && After(cur, e) ==> e in page || BehindAll(page, e)
  }

  lemma GaplessCommit(log: seq<Event>, cur: Cursor, batch: seq<Event>, rest: seq<Event>)
    requires batch != [] && PageOk(log, cur, batch + rest) && Gapless(log, cur, batch + rest)
    ensures PassedPrices(log, cur, CursorOf(batch[|batch| - 1]), batch) == {}
    ensures Gapless(log, CursorOf(batch[|batch| - 1]), rest)
  {
    var last := batch[|batch| - 1];
    var next := CursorOf(last);
    SplitSorted(batch, rest);
    RestBehindBatch(batch, rest);
    CursorPassesBatch(batch);
    assert last in batch + rest;
    hide Sorted;
    forall e | e in log && e.payload.PriceUpdated? && After(next, e)
      ensures e in rest || BehindAll(rest, e)
    {
      AfterMonotone(cur, last, e);
    }
    forall e | e in log && e.payload.PriceUpdated? && After(cur, e) && !After(next, e)
      ensures e in batch
    {
    }
  }

  lemma GaplessWithout(log: seq<Event>, cur: Cursor, a: seq<Event>, ev: Event, b: seq<Event>)
    requires Gapless(log, cur, a + ([ev] + b)) && !ev.payload.PriceUpdated?
    ensures Gapless(log, cur, a + b)
  {
    hide After;
    forall e | e in log && e.payload.PriceUpdated? && After(cur, e)
      ensures e in a + b || BehindAll(a + b, e)
    {
      assert forall x :: x in a + b ==> x in a + ([ev] + b);
    }
  }

  /** A page that is the next stretch of the log leaves no gap. */
  lemma GaplessPrefix(log: seq<Event>, cur: Cursor, page: seq<Event>)
    requires Sorted(log) && page <= Behind(log, cur)
    ensures Gapless(log, cur, page)
  {
    var all := Behind(log, cur);
    BehindFacts(log, cur);
    hide Behind, After;
    forall e | e in log && e.payload.PriceUpdated? && After(cur, e)
      ensures e in page || BehindAll(page, e)
    {
      var i :| 0 <= i < |all| && all[i] == e;
      if i < |page| {
        assert page[i] == e;
      } else {
        PrefixInFront(all, page, i);
      }
    }
  }

  /** What the store has recorded, and the worker's cursor. */
  datatype Books = Books(settled: seq<Event>, applied: seq<Event>, dlq: seq<DeadLetter>, cur: Cursor)

  /** From x with the batch a to y with the batch b, one event was handled. */
  predicate Moved(x: Books, a: seq<Event>, y: Books, b: seq<Event>, ev: Event, stale: bool) {
    y.settled + b == x.settled + (a + Settles(ev, stale)) &&
    y.applied + b == x.applied + (a + Accepts(ev, stale)) &&
    y.dlq == x.dlq + Refuses(ev, stale) &&
    CursorAfter(y.cur, b) == CursorAfter(x.cur, a + Settles(ev, stale))
  }

  /** From x to y with the batch b, the events were handled. */
  predicate Progressed(x: Books, y: Books, b: seq<Event>, events: seq<Event>, stale: seq<bool>) {
    |stale| == |events| &&
    y.settled + b == x.settled + Settled(events, stale) &&
    y.applied + b == x.applied + Accepted(events, stale) &&
    y.dlq == x.dlq + Refused(events, stale) &&
    CursorAfter(y.cur, b) == CursorAfter(x.cur, Settled(events, stale))
  }

  lemma NoProgress(x: Books)
    ensures Progressed(x, x, [], [], [])
  {
    assert x.settled + [] == x.settled && x.applied + [] == x.applied && x.dlq + [] == x.dlq;
  }

  lemma ProgressOn(x: Books, y: Books, a: seq<Event>, events: seq<Event>, stale: seq<bool>,
                   z: Books, b: seq<Event>, ev: Event, s: bool)
    requires Progressed(x, y, a, events, stale) && Moved(y, a, z, b, ev, s)
    ensures Progressed(x, z, b, events + [ev], stale + [s])
  {
    PageSnoc(events, stale, ev, s);
    CursorAfterMore(y.cur, a, Settles(ev, s));
    CursorAfterMore(x.cur, Settled(events, stale), Settles(ev, s));
    OneMore(y.settled, a, x.settled, Settled(events, stale), Settles(ev, s));
    OneMore(y.applied, a, x.applied, Accepted(events, stale), Accepts(ev, s));
    assert (x.dlq + Refused(events, stale)) + Refuses(ev, s) == x.dlq + (Refused(events, stale) + Refuses(ev, s));
    hide Settles, Accepts, Refuses, Settled, Accepted, Refused, CursorAfter;
  }

  /** The batch that was gathered is what the handled events accept, when nothing was committed yet. */
  lemma NothingCommitted(x: Books, y: Books, b: seq<Event>, events: seq<Event>, stale: seq<bool>)
    requires Progressed(x, y, b, events, stale) && NeverStale(stale) && y.settled == x.settled
    ensures b == PriceEvents(events)
  {
    FreshPagesSettle(events, stale);
    var k := |x.settled|;
    assert b == (y.settled + b)[k..];
    assert Settled(events, stale) == (x.settled + Settled(events, stale))[k..];
  }

  /** The worker that drives one price partition. */
  class PricePartitionWorker {
    const store: PriceStore
    const watermark: nat
    const maxEventAge: nat
    var cur: Cursor

    constructor (store: PriceStore, watermark: nat, maxEventAge: nat)
      ensures this.store == store && this.watermark == watermark && this.maxEventAge == maxEventAge && cur == ZERO_CURSOR
    {
      this.store, this.watermark, this.maxEventAge, cur := store, watermark, maxEventAge, ZERO_CURSOR;
    }

    ghost function Kept(): Books
      reads this, store
    {
      Books(store.settled, store.applied, store.dlq, cur)
    }

    /** Commits the batch, if there is one; rest is what follows it in the page. */
    method FlushPrices(okBatch: seq<Event>, ghost rest: seq<Event>) returns (err: bool)
      requires store.Valid() && PageOk(store.log, cur, okBatch + rest) && AllPrices(okBatch)
      modifies `cur, store, store.env
      ensures store.Valid() && store.log == old(store.log) && store.dlq == old(store.dlq)
      ensures old(store.env.ops) <= store.env.ops && store.env.readings == old(store.env.readings)
      ensures err ==> store.env.Faulted(old(store.env.ops), store.env.ops) || store.Blocked()
      ensures !err ==>
                store.settled == old(store.settled) + okBatch && store.applied == old(store.applied) + okBatch &&
                ApplyPrices(old(store.tables), okBatch) == Some(store.tables) &&
                cur == CursorAfter(old(cur), okBatch) && store.cursor == CursorAfter(old(store.cursor), okBatch)
      ensures old(cur == store.cursor) ==> store.retried == old(store.retried)
      ensures old(cur == store.cursor && Gapless(store.log, cur, okBatch + rest)) ==>
                store.missed == old(store.missed) && (!err ==> Gapless(store.log, cur, rest))
      ensures ApplyPrices(old(store.tables), okBatch).None? ==>
                err && store.tables == old(store.tables) && store.cursor == old(store.cursor) && cur == old(cur)
    {
      hide ApplyPrices, Sorted, AllPrices, Gapless, PassedPrices, After, InStep, Balanced, PricesAccounted;
      PageOkSplit(store.log, cur, okBatch, rest);
      if okBatch == [] {
        WriteNothing(store.tables);
        assert okBatch + rest == rest;
        return false;
      }
      if Gapless(store.log, cur, okBatch + rest) {
        GaplessCommit(store.log, cur, okBatch, rest);
      }
      var outcome := store.env.Attempt();
      ghost var fate;
      err, fate := store.ApplyPriceBatch(okBatch, outcome);
      assert forall e :: e in okBatch ==> e in okBatch + rest;
      if !err {
        cur := CursorOf(okBatch[|okBatch| - 1]);
      }
    }

    /** Records a stale event as dead; rest is what follows it in the page. */
    method SetStaleAside(ev: Event, ghost rest: seq<Event>) returns (err: bool)
      requires store.Valid() && PageOk(store.log, cur, [ev] + rest)
      modifies `cur, store`cursor, store`dlq, store`settled, store`missed, store`retried, store.env`ops
      ensures store.Valid() && old(store.env.ops) <= store.env.ops
      ensures err ==> store.env.Faulted(old(store.env.ops), store.env.ops)
      ensures !err ==>
                store.settled == old(store.settled) + [ev] && store.dlq == old(store.dlq) + [DeadLetter(ev, EventTooStale)] &&
                cur == store.cursor == CursorOf(ev)
      ensures old(cur == store.cursor) ==> store.retried == old(store.retried)
      ensures old(cur == store.cursor && Gapless(store.log, cur, [ev] + rest)) ==>
                store.missed == old(store.missed) && (!err ==> Gapless(store.log, cur, rest))
    {
      hide ApplyPrices, Sorted, Gapless, PassedPrices, After, PageOk, InStep, Balanced, PricesAccounted, AllPrices;
      PageOkHead(store.log, cur, ev, rest);
      if Gapless(store.log, cur, [ev] + rest) {
        GaplessCommit(store.log, cur, [ev], rest);
      }
      var outcome := store.env.Attempt();
      err := store.PersistApplyDLQ(ev, EventTooStale, outcome);
      if !err {
        cur := CursorOf(ev);
      }
    }

    /** Handles the next event of a page: into the batch when it is a fresh price event, into the dead letters
        behind a flush of the batch when it is stale, and otherwise not at all. */
    method HandleOne(ev: Event, okBatch: seq<Event>, ghost rest: seq<Event>)
      returns (err: bool, okBatch': seq<Event>, ghost stale: bool)
      requires store.Valid() && PageOk(store.log, cur, okBatch + ([ev] + rest)) && AllPrices(okBatch)
      modifies `cur, store, store.env
      ensures store.Valid() && store.log == old(store.log)
      ensures old(store.env.ops) <= store.env.ops && old(store.env.readings) < store.env.readings
      ensures stale <==> maxEventAge > 0 && store.env.clock(old(store.env.readings)) - ev.time > maxEventAge
      ensures err ==> store.env.Faulted(old(store.env.ops), store.env.ops) || store.Blocked()
      ensures old(cur == store.cursor) ==> store.retried == old(store.retried) && (!err ==> cur == store.cursor)
      ensures old(cur == store.cursor && Gapless(store.log, cur, okBatch + ([ev] + rest))) ==>
                store.missed == old(store.missed) && (!err ==> Gapless(store.log, cur, okBatch' + rest))
      ensures maxEventAge == 0 ==>
                !err && !stale && cur == old(cur) && store.cursor == old(store.cursor) && store.tables == old(store.tables) &&
                store.settled == old(store.settled)
      ensures !err ==>
                Moved(old(Kept()), okBatch, Kept(), okBatch', ev, stale) &&
                AllPrices(okBatch') && PageOk(store.log, cur, okBatch' + rest)
    {
      hide ApplyPrices, Sorted, PageOk, Gapless, After, InStep, Balanced, PricesAccounted;
      var now := store.env.Now();
      var tooStale := TooStale(ev, maxEventAge, now);
      stale := tooStale;
      if !tooStale {
        if ev.payload.PriceUpdated? {
          okBatch' := okBatch + [ev];
          assert okBatch + ([ev] + rest) == okBatch' + rest;
        } else {
          okBatch' := okBatch;
          PageOkWithout(store.log, cur, okBatch, ev, rest);
          if Gapless(store.log, cur, okBatch + ([ev] + rest)) {
            GaplessWithout(store.log, cur, okBatch, ev, rest);
          }
          assert okBatch + [] == okBatch;
        }
        assert store.dlq + [] == store.dlq;
        return false, okBatch', stale;
      }
      PageOkSplit(store.log, cur, okBatch, [ev] + rest);
      PageOkHead(store.log, CursorAfter(cur, okBatch), ev, rest);
      okBatch' := [];
      assert [] + rest == rest;
      err := FlushPrices(okBatch, [ev] + rest);
      if !err {
        err := SetStaleAside(ev, rest);
      }
    }

    /** Applies a page in order. When it succeeds, exactly the price events and the stale events of the page
        were settled; a batch that cannot be applied leaves the partition where it was. */
    method ApplyPriceEligible(eligible: seq<Event>) returns (err: bool, ghost stale: seq<bool>)
      requires store.Valid() && PageOk(store.log, cur, eligible)
      modifies `cur, store, store.env
      ensures old(store.env.ops) <= store.env.ops && old(store.env.readings) <= store.env.readings
      ensures err ==> store.env.Faulted(old(store.env.ops), store.env.ops) || store.Blocked()
      ensures !err ==>
                |stale| == |eligible| && Judged(store.env, maxEventAge, eligible, stale, old(store.env.readings), store.env.readings)
      ensures store.Valid() && store.log == old(store.log)
      ensures old(cur == store.cursor) ==> store.retried == old(store.retried) && (!err ==> cur == store.cursor)
      ensures old(cur == store.cursor && Gapless(store.log, cur, eligible)) ==> store.missed == old(store.missed)
      ensures !err ==>
                |stale| == |eligible| && (maxEventAge == 0 ==> NeverStale(stale)) &&
                store.settled == old(store.settled) + Settled(eligible, stale) &&
                store.applied == old(store.applied) + Accepted(eligible, stale) &&
                store.dlq == old(store.dlq) + Refused(eligible, stale) &&
                cur == CursorAfter(old(cur), Settled(eligible, stale))
      ensures maxEventAge == 0 && ApplyPrices(old(store.tables), PriceEvents(eligible)).None? ==>
                err && cur == old(cur) && store.cursor == old(store.cursor) && store.tables == old(store.tables)
    {
      hide ApplyPrices, Sorted, PageOk, Progressed, Moved, Settled, Accepted, Refused, Gapless, InStep, Balanced, PricesAccounted,
           Judged, AllPrices, PriceStore.Valid, PriceStore.Blocked, PriceEvents, NeverStale, CursorAfter;
      NeverStaleSnoc();
      ghost var x := Kept();
      var okBatch: seq<Event> := [];
      stale := [];
      var i := 0;
      NoProgress(x);
      NothingJudged(store.env, maxEventAge, eligible, store.env.readings);
      NoPrices();
      assert okBatch + eligible[0..] == eligible && eligible[..0] == [];
      while i < |eligible|
        invariant 0 <= i <= |eligible| && |stale| == i && store.Valid() && store.log == old(store.log)
        invariant old(store.env.ops) <= store.env.ops && old(store.env.readings) <= store.env.readings
        invariant Judged(store.env, maxEventAge, eligible, stale, old(store.env.readings), store.env.readings)
        invariant AllPrices(okBatch) && PageOk(store.log, cur, okBatch + eligible[i..])
        invariant old(cur == store.cursor) ==> store.retried == old(store.retried) && cur == store.cursor
        invariant old(cur == store.cursor && Gapless(store.log, cur, eligible)) ==>
                    store.missed == old(store.missed) && Gapless(store.log, cur, okBatch + eligible[i..])
        invariant Progressed(x, Kept(), okBatch, eligible[..i], stale)
        invariant maxEventAge == 0 ==>
                    NeverStale(stale) && cur == old(cur) && store.cursor == old(store.cursor) &&
                    store.tables == old(store.tables) && store.settled == old(store.settled)
      {
        ghost var y, a := Kept(), okBatch;
        ghost var s, n := false, store.env.readings;
        assert eligible[i..] == [eligible[i]] + eligible[i + 1..];
        err, okBatch, s := HandleOne(eligible[i], okBatch, eligible[i + 1..]);
        if err {
          return;
        }
        JudgedNext(store.env, maxEventAge, eligible, stale, old(store.env.readings), s, n, store.env.readings);
        assert eligible[..i + 1] == eligible[..i] + [eligible[i]];
        ProgressOn(x, y, a, eligible[..i], stale, Kept(), okBatch, eligible[i], s);
        stale := stale + [s];
        i := i + 1;
      }
      assert eligible[..i] == eligible && okBatch + eligible[i..] == okBatch;
      if maxEventAge == 0 {
        NothingCommitted(x, Kept(), okBatch, eligible, stale);
      }
      ghost var y := Kept();
      assert okBatch + [] == okBatch;
      err := FlushPrices(okBatch, []);
      if !err {
        FlushedAll(x, y, okBatch, eligible, stale);
      }
    }

    /** Reads the next page and cuts it at the watermark; full says whether a whole full page may be
        applied. */
    method ReadEligible() returns (eligible: seq<Event>, full: bool)
      requires Sorted(store.log)
      ensures PageOk(store.log, cur, eligible) && Gapless(store.log, cur, eligible)
      ensures full <==> |EligibleBatch(Take(Behind(store.log, cur), PAGE), MaxTime(store.log) - watermark, watermark, PAGE)| == PAGE
      ensures eligible == [] ==> RoundLeaves(store.log, cur, cur, false, watermark)
      ensures eligible != [] ==> RoundLeaves(store.log, cur, CursorOf(eligible[|eligible| - 1]), full, watermark)
      ensures full ==> eligible == Take(Behind(store.log, cur), PAGE)
    {
      hide EligibleBatch, Take, Behind, Sorted, RoundLeaves, Gapless;
      EligibleIsNext(Behind(store.log, cur), MaxTime(store.log) - watermark, watermark);
      TakeLength(Behind(store.log, cur));
      var cutoff := MaxTime(store.log) - watermark;
      var batch := Take(Behind(store.log, cur), PAGE);
      eligible := EligibleBatch(batch, cutoff, watermark, PAGE);
      full := |eligible| == |batch| && |batch| == PAGE;
      RoundByRound(store.log, cur, watermark, batch, eligible);
      EligiblePage(store.log, cur, cutoff, watermark);
      GaplessPrefix(store.log, cur, eligible);
    }

    /** The two reads of a round. */
    method ReadsFail() returns (err: bool)
      modifies store.env`ops
      ensures old(store.env.ops) <= store.env.ops && (err ==> store.env.Faulted(old(store.env.ops), store.env.ops))
    {
      var maxTimeRead := store.env.Attempt();
      if maxTimeRead != Committed {
        return true;
      }
      var pageRead := store.env.Attempt();
      return pageRead != Committed;
    }

    /** One round of a pump: it fails only after a failed operation or at a batch that cannot be applied. It misses nothing. On a log of price events what was settled is the log up to the
        cursor, and the round leaves what module Rounds says. A round asks for another just when a whole full
        page was eligible; it then stands still exactly when that page holds no price event, and the next round
        fetches the same page again. */
    method PumpRound() returns (err: bool, again: bool)
      requires store.Valid()
      modifies `cur, store, store.env
      ensures store.Valid() && store.log == old(store.log) && old(store.env.ops) <= store.env.ops
      ensures err ==> store.env.Faulted(old(store.env.ops), store.env.ops) || store.Blocked()
      ensures old(cur == store.cursor) ==>
                store.retried == old(store.retried) && store.missed == old(store.missed) && (!err ==> cur == store.cursor)
      ensures !store.retried && AllPrices(store.log) ==>
                store.settled == Covered(store.log, store.cursor, store.missed)
      ensures !err && AllPrices(store.log) ==> RoundLeaves(store.log, old(cur), cur, again, watermark)
      ensures !err ==>
                (again <==> |EligibleBatch(Take(Behind(store.log, old(cur)), PAGE), MaxTime(store.log) - watermark, watermark, PAGE)| == PAGE)
      ensures !err && again && maxEventAge == 0 ==>
                (cur == old(cur) <==> PriceEvents(Take(Behind(store.log, old(cur)), PAGE)) == [])
    {
      hide Take, Behind, Sorted, RoundLeaves, ApplyPrices, PageOk, Settled, Accepted, Refused, PriceEvents, InStep, Gapless,
           Covered, EligibleBatch, PricesAccounted, Balanced;
      again := false;
      ghost var from := cur;
      err := ReadsFail();
      if !err {
        var eligible, full := ReadEligible();
        if eligible != [] {
          ghost var stale;
          err, stale := ApplyPriceEligible(eligible);
          if !err {
            again := full;
            SettledPage(store.log, from, eligible, stale);
          }
        }
      }
      if !store.retried {
        SettledIsCovered(store);
      }
    }

    /** Pumps page after page. It ends because the partition holds only price events; it misses nothing, and
        what was settled is the log up to the cursor. */
    method PumpAfterCursor() returns (err: bool)
      requires store.Valid() && AllPrices(store.log)
      modifies `cur, store, store.env
      ensures store.Valid() && store.log == old(store.log) && old(store.env.ops) <= store.env.ops
      ensures err ==> store.env.Faulted(old(store.env.ops), store.env.ops) || store.Blocked()
      ensures old(cur == store.cursor) ==>
                store.retried == old(store.retried) && store.missed == old(store.missed) && (!err ==> cur == store.cursor)
      ensures !store.retried ==> store.settled == Covered(store.log, store.cursor, store.missed)
      ensures !err ==> PumpLeaves(store.log, old(cur), cur, false, watermark)
    {
      hide Take, Behind, Sorted, RoundLeaves, PumpLeaves, ApplyPrices, InStep, AllPrices, Covered, EligibleBatch, PriceEvents,
           PricesAccounted, Balanced;
      ghost var cur0 := cur;
      err := false;
      var again := true;
      PumpStarts(store.log, cur0, watermark);
      if !store.retried {
        SettledIsCovered(store);
      }
      while again
        invariant store.Valid() && store.log == old(store.log) && !err && old(store.env.ops) <= store.env.ops
        invariant old(cur == store.cursor) ==>
                    store.retried == old(store.retried) && store.missed == old(store.missed) && cur == store.cursor
        invariant !store.retried ==> store.settled == Covered(store.log, store.cursor, store.missed)
        invariant PumpLeaves(store.log, cur0, cur, again, watermark)
        decreases again, |Behind(store.log, cur)|
      {
        ghost var cur1 := cur;
        err, again := PumpRound();
        if err {
          return;
        }
        PumpOn(store.log, cur0, cur1, cur, again, watermark);
      }
    }

    /** Start-up: with no stored cursor the whole log is applied, else the pump goes on from the cursor. It
        misses nothing and never commits a batch twice; what was settled is the log up to the cursor, and when
        it succeeds the whole log is settled, or all of it that a pump settles. */
    method Rebuild() returns (err: bool)
      requires store.Valid() && AllPrices(store.log)
      modifies `cur, store, store.env
      ensures store.Valid() && store.log == old(store.log) && old(store.env.ops) <= store.env.ops
      ensures err ==> store.env.Faulted(old(store.env.ops), store.env.ops) || store.Blocked()
      ensures store.retried == old(store.retried) && store.missed == old(store.missed)
      ensures !store.retried ==> store.settled == Covered(store.log, store.cursor, store.missed)
      ensures !err ==> cur == store.cursor
      ensures !err ==>
                if old(store.cursor).IsZero() then Behind(store.log, cur) == []
                else PumpLeaves(store.log, old(store.cursor), cur, false, watermark)
    {
      hide Sorted, PageOk, ApplyPrices, InStep, AllPrices, PumpLeaves, Covered, Gapless, Behind, Settled, PriceEvents,
           PricesAccounted, Balanced, Accepted, Refused;
      if !store.retried {
        SettledIsCovered(store);
      }
      ghost var from := store.cursor;
      var cursorRead := store.env.Attempt();
      if cursorRead != Committed {
        return true;
      }
      cur := store.cursor;
      if cur.IsZero() {
        var eventsRead := store.env.Attempt();
        if eventsRead != Committed {
          return true;
        }
        WholeLogIsPage(store.log, cur);
        ghost var stale;
        err, stale := ApplyPriceEligible(store.log);
        if !err {
          WholeLogSettled(store.log, from, stale);
        }
        if !store.retried {
          SettledIsCovered(store);
        }
      } else {
        err := PumpAfterCursor();
      }
    }
  }

  /** The pool's entry for one price partition: its store and, when it is running, its worker. */
  class PriceSlot {
    const store: PriceStore
    const watermark: nat
    const maxEventAge: nat
    var worker: PricePartitionWorker?

    constructor (store: PriceStore, watermark: nat, maxEventAge: nat)
      requires store.Valid() && AllPrices(store.log)
      ensures Valid() && this.store == store && this.watermark == watermark && this.maxEventAge == maxEventAge && worker == null
    {
      this.store, this.watermark, this.maxEventAge, worker := store, watermark, maxEventAge, null;
    }

    ghost predicate Valid()
      reads this, store, worker
    {
      store.Valid() && AllPrices(store.log) && (worker != null ==> worker.store == store && worker.watermark == watermark && worker.maxEventAge == maxEventAge)
    }

    /** One tick of the pool: start and rebuild a missing worker, and drop it when that fails; then pump. It is done, unless
        an operation fails or a batch cannot be applied: then a worker is running and has pumped from its cursor, or from
        where its start-up left it. */
    method Tick() returns (done: bool, ghost from: Cursor)
      requires Valid()
      modifies this, worker, store, store.env
      ensures Valid() && store.log == old(store.log) && old(store.env.ops) <= store.env.ops
      ensures worker == null || worker == old(worker) || fresh(worker)
      ensures !done ==> store.env.Faulted(old(store.env.ops), store.env.ops) || store.Blocked()
      ensures done ==> worker != null && PumpLeaves(store.log, from, worker.cur, false, watermark)
      ensures done ==>
                if old(worker) != null then from == old(if worker != null then worker.cur else ZERO_CURSOR)
                else if old(store.cursor).IsZero() then Behind(store.log, from) == []
                else PumpLeaves(store.log, old(store.cursor), from, false, watermark)
      ensures old(worker == null || worker.cur == store.cursor) ==>
                store.retried == old(store.retried) && store.missed == old(store.missed) && (done ==> worker.cur == store.cursor)
      ensures !store.retried ==> store.settled == Covered(store.log, store.cursor, store.missed)
    {
      hide PumpLeaves, AllPrices, Behind, Covered, Sorted, ApplyPrices, InStep, PricesAccounted, Balanced;
      var err;
      if worker == null {
        worker := new PricePartitionWorker(store, watermark, maxEventAge);
        err := worker.Rebuild();
        from := worker.cur;
        if err {
          worker := null;
          return false, from;
        }
      }
      from := worker.cur;
      err := worker.PumpAfterCursor();
      done := !err;
    }
  }

  /** Two ticks without a failure settle the whole log, but for missed events, when no batch is blocked and fewer than 200
      events behind the cursor are newer than the cutoff. */
  method TwoTicks(slot: PriceSlot)
    requires slot.Valid() && slot.worker != null && slot.worker.cur == slot.store.cursor && !slot.store.retried
    modifies slot, slot.worker, slot.store, slot.store.env
    ensures slot.Valid() && slot.store.log == old(slot.store.log) && slot.store.missed == old(slot.store.missed)
    ensures !slot.store.env.Faulted(old(slot.store.env.ops), slot.store.env.ops) && !slot.store.Blocked() &&
            Few(slot.store.log, old(slot.store.cursor), slot.watermark) ==>
              Behind(slot.store.log, slot.store.cursor) == [] &&
              forall e :: e in slot.store.log ==> e in slot.store.settled || e in slot.store.missed
  {
    hide PumpLeaves, AllPrices, Behind, Covered, Sorted, ApplyPrices, InStep, PricesAccounted, Balanced, Few;
    ghost var c0 := slot.store.cursor;
    ghost var from, from2;
    var done;
    done, from := slot.Tick();
    if !done {
      return;
    }
    done, from2 := slot.Tick();
    if !slot.store.env.Faulted(old(slot.store.env.ops), slot.store.env.ops) && !slot.store.Blocked() &&
       Few(slot.store.log, c0, slot.watermark) {
      Drained(slot.store.log, c0, from2, slot.worker.cur, slot.watermark);
      CoveredAll(slot.store.log, slot.store.cursor, slot.store.missed);
    }
  }

  lemma CoveredAll(log: seq<Event>, cur: Cursor, missed: set<Event>)
    requires Sorted(log) && Behind(log, cur) == []
    ensures forall e :: e in log ==> e in Covered(log, cur, missed) || e in missed
  {
    BehindFacts(log, cur);
    CoveredFacts(log, cur, missed);
    hide Behind, Covered;
  }

  lemma NeverStaleSnoc()
    ensures NeverStale([]) && forall stale, s :: NeverStale(stale) && !s ==> NeverStale(stale + [s])
  {
  }

  lemma NoPrices()
    ensures AllPrices([])
  {
  }

  lemma TakeLength(all: seq<Event>)
    ensures |Take(all, PAGE)| <= PAGE
  {
  }

  /** Once the whole log was settled nothing lies behind the cursor. */
  lemma WholeLogSettled(log: seq<Event>, cur: Cursor, stale: seq<bool>)
    requires Sorted(log) && AllPrices(log) && |stale| == |log| && cur.IsZero()
    ensures Behind(log, CursorAfter(cur, Settled(log, stale))) == []
  {
    AllPricesSettle(log, stale);
    if log != [] {
      CursorPassesBatch(log);
      NothingBehind(log, CursorOf(log[|log| - 1]));
    }
    hide Settled, Sorted, AllPrices;
  }

  lemma {:induction false} NothingBehind(log: seq<Event>, cur: Cursor)
    requires forall e :: e in log ==> !After(cur, e)
    ensures Behind(log, cur) == []
  {
    hide After;
    if log != [] {
      assert log[0] in log;
      assert forall e :: e in log[1..] ==> e in log;
      NothingBehind(log[1..], cur);
    }
  }

  lemma WholeLogIsPage(log: seq<Event>, cur: Cursor)
    requires Sorted(log) && cur.IsZero()
    ensures PageOk(log, cur, log) && Gapless(log, cur, log)
  {
    hide Sorted;
  }

  /** Where a page that was handled leaves the cursor. */
  lemma SettledPage(log: seq<Event>, cur: Cursor, page: seq<Event>, stale: seq<bool>)
    requires PageOk(log, cur, page) && page != [] && |stale| == |page|
    ensures AllPrices(log) ==> CursorAfter(cur, Settled(page, stale)) == CursorOf(page[|page| - 1])
    ensures NeverStale(stale) ==> (CursorAfter(cur, Settled(page, stale)) == cur <==> PriceEvents(page) == [])
  {
    hide Sorted;
    if AllPrices(log) {
      assert AllPrices(page);
      AllPricesSettle(page, stale);
    }
    if NeverStale(stale) {
      FreshPagesSettle(page, stale);
      PriceEventsMembers(page);
      var done := PriceEvents(page);
      assert done != [] ==> done[|done| - 1] in page;
    }
    hide Settled, PriceEvents;
  }

  lemma FlushedAll(x: Books, y: Books, b: seq<Event>, events: seq<Event>, stale: seq<bool>)
    requires Progressed(x, y, b, events, stale)
    ensures |stale| == |events| && y.settled + b == x.settled + Settled(events, stale) &&
            y.applied + b == x.applied + Accepted(events, stale) && y.dlq == x.dlq + Refused(events, stale) &&
            CursorAfter(y.cur, b) == CursorAfter(x.cur, Settled(events, stale))
  {
  }

  lemma CursorAfterMore(cur: Cursor, a: seq<Event>, b: seq<Event>)
    ensures CursorAfter(cur, a + b) == CursorAfter(CursorAfter(cur, a), b)
  {
    assert b == [] ==> a + b == a;
  }

  lemma OneMore<T>(x: seq<T>, a: seq<T>, y: seq<T>, b: seq<T>, e: seq<T>)
    requires x + a == y + b
    ensures x + (a + e) == y + (b + e)
  {
    assert x + (a + e) == (x + a) + e;
    assert y + (b + e) == (y + b) + e;
  }

  lemma PageOkHead(log: seq<Event>, cur: Cursor, ev: Event, rest: seq<Event>)
    requires PageOk(log, cur, [ev] + rest)
    ensures ev in log && After(cur, ev) && PageOk(log, CursorOf(ev), rest)
  {
    assert ev in [ev] + rest;
    PageOkSplit(log, cur, [ev], rest);
  }
}
