/** A worker that is kept after a dead letter's commit was not acknowledged, and where the stored cursor goes. */
module KeptLetters {
  import opened Events
  import opened EventTable
  import opened History
  import opened Watermark
  import opened Partition
  import opened Refinement
  import opened Runs
  import opened Losses
  import opened Hazards
  import opened Pages
  import opened KeptWorker
  import opened Options
  import opened Arrival

  /** The letter is stored although the worker is told that it is not. */
  lemma LetterKept(w: World, stale: bool)
    requires Enabled(w, DeadLetterNext(stale, Unacknowledged))
    ensures var ev, kept := w.worker.todo[0], Next(w, DeadLetterNext(stale, Unacknowledged));
            kept.worker == Abandon(w.worker, true) && kept.store.log == w.store.log && kept.store.rows == w.store.rows &&
            kept.store.cursor == CursorOf(ev) &&
            kept.store.dlq == w.store.dlq + [DeadLetter(ev, if stale then EventTooStale else PositionUnderflow)] &&
            EventsOf(kept.history) == EventsOf(w.history) + [ev]
  {
    ReplaySnoc(w.history, Handled(w.worker.todo[0], stale));
    hide ApplyEvent, Skipped, Replay, EventsOf;
  }

  /** The event is recorded as dead a second time when the worker is kept and fetches it again. */
  lemma DeadLetterTwice(w: World, cutoff: int, watermark: int)
    requires w.worker.Up? && w.worker.pending == [] && w.worker.todo != []
    requires ApplyEvent(w.worker.lots, w.worker.todo[0]).Underflow?
    requires var again := Next(Next(w, DeadLetterNext(false, Unacknowledged)), Fetch(cutoff, watermark));
             again.worker.Up? && again.worker.todo != [] && again.worker.todo[0] == w.worker.todo[0]
    ensures var again := Next(Next(w, DeadLetterNext(false, Unacknowledged)), Fetch(cutoff, watermark));
            var r := Next(again, DeadLetterNext(false, Committed));
            var letter := DeadLetter(w.worker.todo[0], PositionUnderflow);
            again.torn && r.store.dlq == w.store.dlq + [letter] + [letter]
  {
    var ev := w.worker.todo[0];
    LetterKept(w, false);
    var kept := Next(w, DeadLetterNext(false, Unacknowledged));
    hide ApplyEvent, Skipped, EligibleBatch, Take, Behind;
    var again := Next(kept, Fetch(cutoff, watermark));
    assert again.store.dlq == kept.store.dlq && again.worker.lots == w.worker.lots && again.worker.pending == [];
  }

  /** How often the event is handled: twice exactly when it is in the page that the worker fetches with its old cursor,
      wherever in it, and once otherwise. The dead letters are that of the event and those of handling the page. */
  lemma UnacknowledgedLetterIff(w: World, stale: bool, arrivals: seq<Event>, cutoff: int, watermark: int)
    requires Good(w) && Enabled(w, DeadLetterNext(stale, Unacknowledged))
    requires var again := Again(w, DeadLetterNext(stale, Unacknowledged), arrivals, cutoff, watermark);
             again.worker.Up? && NoUnknownSide(again.worker.todo)
    ensures var ev, again := w.worker.todo[0], Again(w, DeadLetterNext(stale, Unacknowledged), arrivals, cutoff, watermark);
            var page := EligibleBatch(Take(Behind(again.store.log, w.worker.cur), PAGE), cutoff, watermark, PAGE);
            var letter := DeadLetter(ev, if stale then EventTooStale else PositionUnderflow);
            multiset(EventsOf(Finish(again).history))[ev] == (if ev in page then 2 else 1) &&
            Finish(again).store.dlq == w.store.dlq + [letter] + HandleAll(w.worker.lots, page).dlq
  {
    hide Good, Next, Finish, HandleAll, NoUnknownSide, Again, EventsOf, EligibleBatch, Take, Behind, Sorted, WriteRows, Touched, ApplyEvent;
    var ev := w.worker.todo[0];
    var again := Again(w, DeadLetterNext(stale, Unacknowledged), arrivals, cutoff, watermark);
    NotHandledYet(w, stale);
    LetterKept(w, stale);
    AgainFetches(w, DeadLetterNext(stale, Unacknowledged), arrivals, cutoff, watermark);
    FinishHandlesAll(again);
    FinishRest(again);
    var page := again.worker.todo;
    assert [] + page == page;
    OnceInPage(page, ev);
    OnceMore(EventsOf(w.history), ev, page);
  }

  lemma NotHandledYet(w: World, stale: bool)
    requires Good(w) && Enabled(w, DeadLetterNext(stale, Unacknowledged))
    ensures w.worker.todo[0] !in EventsOf(w.history) && Sorted(w.store.log)
  {
    var ev := w.worker.todo[0];
    GoodPage(w);
    assert ev in w.worker.pending + w.worker.todo;
    hide AppliedOnto, Accounted, ProjectionOk, SnapshotsOk, After, EventsOf, WorkerOk, ApplyEvent;
    if ev in EventsOf(w.history) {
      HandledBeforeCursor(w.store, w.history, ev);
    }
  }

  lemma {:induction false} OnceInPage(page: seq<Event>, ev: Event)
    requires Sorted(page)
    ensures multiset(page)[ev] == if ev in page then 1 else 0
  {
    if page != [] {
      LastIsNew(page);
      hide Sorted;
      OnceInPage(page[..|page| - 1], ev);
      assert page == page[..|page| - 1] + [page[|page| - 1]];
    }
  }

  lemma OnceMore(handled: seq<Event>, ev: Event, page: seq<Event>)
    requires ev !in handled
    ensures multiset(handled + [ev] + page)[ev] == 1 + multiset(page)[ev]
  {
  }

  // ----- a letter that comes back -----

  const FIRST_SELL: Event := SellEvent(1, 1, "k1", 1.0, 5.0)

  const LETTER_RUN: seq<Action> :=
    [Rebuild(true), Append(FIRST_SELL), Fetch(1, 0), DeadLetterNext(false, Unacknowledged), Fetch(1, 0)]
    + [DeadLetterNext(false, Committed)]

  /** One sell without a holding, two dead letters. */
  lemma UnacknowledgedLetterTwice()
    ensures var w := Run(START, LETTER_RUN);
            var letter := DeadLetter(FIRST_SELL, PositionUnderflow);
            w.store.log == [FIRST_SELL] && w.store.dlq == [letter, letter]
  {
    var ev := FIRST_SELL;
    var w2 := Next(Next(START, Rebuild(true)), Append(ev));
    assert w2.store == EMPTY_STORE.(log := [ev]) && w2.worker == Up(map[], ZERO_CURSOR, [], [], false);
    OneEventPage(ev);
    LetterUnfolds();
    assert ApplyEvent(map[], ev).Underflow?;
    hide Run, EligibleBatch, Behind, Take, ApplyEvent;
    var w3 := Next(w2, Fetch(1, 0));
    assert w3.worker == Up(map[], ZERO_CURSOR, [ev], [], false) && w3.store == w2.store;
    LetterKept(w3, false);
    var w4 := Next(w3, DeadLetterNext(false, Unacknowledged));
    var w5 := Next(w4, Fetch(1, 0));
    assert w5.worker == Up(map[], ZERO_CURSOR, [ev], [], false) && w5.store == w4.store;
    LetterCommitted(w5);
    hide Next;
  }

  lemma LetterUnfolds()
    ensures Run(START, LETTER_RUN) ==
            Next(Next(Next(Next(Next(Next(START, Rebuild(true)), Append(FIRST_SELL)), Fetch(1, 0)),
              DeadLetterNext(false, Unacknowledged)), Fetch(1, 0)), DeadLetterNext(false, Committed))
  {
    hide Next, SellEvent;
    var ev := FIRST_SELL;
    RunFive(START, Rebuild(true), Append(ev), Fetch(1, 0), DeadLetterNext(false, Unacknowledged), Fetch(1, 0));
    RunSnoc(START, [Rebuild(true), Append(ev), Fetch(1, 0), DeadLetterNext(false, Unacknowledged), Fetch(1, 0)],
      DeadLetterNext(false, Committed));
  }

  // ----- a letter that comes back behind an arrival -----

  const SECOND_SELL: Event := SellEvent(2, 2, "k2", 1.0, 5.0)

  const LETTER_RACE: seq<Action> :=
    [Rebuild(true), Append(SECOND_SELL), Fetch(2, 0), Append(FIRST_SELL), DeadLetterNext(false, Unacknowledged)]
    + [Fetch(2, 0), DeadLetterNext(false, Committed), DeadLetterNext(false, Committed)]

  lemma SellsRejected()
    ensures ApplyEvent(map[], FIRST_SELL).Underflow? && ApplyEvent(map[], SECOND_SELL).Underflow?
  {
  }

  lemma LetterRaceTables()
    ensures Insert([SECOND_SELL], FIRST_SELL) == [FIRST_SELL, SECOND_SELL]
    ensures Behind([FIRST_SELL, SECOND_SELL], ZERO_CURSOR) == [FIRST_SELL, SECOND_SELL]
    ensures EligibleBatch(Take(Behind([FIRST_SELL, SECOND_SELL], ZERO_CURSOR), PAGE), 2, 0, PAGE) == [FIRST_SELL, SECOND_SELL]
  {
    var a, b := FIRST_SELL, SECOND_SELL;
    assert Insert([b], a) == [a] + [b];
    assert Behind([b], ZERO_CURSOR) == [b] + Behind([], ZERO_CURSOR);
    assert Behind([a, b], ZERO_CURSOR) == [a] + Behind([b], ZERO_CURSOR);
    assert EligiblePrefix([b], 2) == [b] + EligiblePrefix([], 2);
    assert EligiblePrefix([a, b], 2) == [a] + EligiblePrefix([b], 2);
  }

  /** One more dead letter of the page. */
  lemma LetterCommitted(w: World)
    requires w.worker.Up? && w.worker.pending == [] && w.worker.todo != []
    requires ApplyEvent(w.worker.lots, w.worker.todo[0]).Underflow?
    ensures var ev, r := w.worker.todo[0], Next(w, DeadLetterNext(false, Committed));
            r.store == w.store.(dlq := w.store.dlq + [DeadLetter(ev, PositionUnderflow)], cursor := CursorOf(ev)) &&
            r.worker == w.worker.(cur := CursorOf(ev), todo := w.worker.todo[1..])
  {
    hide ApplyEvent, Skipped;
  }

  /** The second sell's letter is not acknowledged, the first sell arrives in front of it meanwhile: the page comes back
      with both, the second sell is recorded as dead twice, and on the way the stored cursor goes back from the second
      sell to the first. */
  lemma LetterBehindArrival()
    ensures var x, y := DeadLetter(FIRST_SELL, PositionUnderflow), DeadLetter(SECOND_SELL, PositionUnderflow);
            Run(START, LETTER_RACE).store.dlq == [y, x, y]
    ensures Run(START, LETTER_RACE[..5]).store.cursor == CursorOf(SECOND_SELL)
    ensures Run(START, LETTER_RACE[..7]).store.cursor == CursorOf(FIRST_SELL)
  {
    hide Run, Next, FIRST_SELL, SECOND_SELL;
    LetterRaceUnfolds();
    hide LETTER_RACE;
    var w5 := LetterRaceFirst();
    LetterRaceSecond(w5);
    var x, y := DeadLetter(FIRST_SELL, PositionUnderflow), DeadLetter(SECOND_SELL, PositionUnderflow);
    assert [y] + [x] + [y] == [y, x, y];
  }

  lemma LetterRaceFirst() returns (w5: World)
    ensures w5 == Next(Next(Next(Next(Next(START, Rebuild(true)), Append(SECOND_SELL)), Fetch(2, 0)), Append(FIRST_SELL)),
                    DeadLetterNext(false, Unacknowledged))
    ensures w5.store.log == [FIRST_SELL, SECOND_SELL] && w5.store.cursor == CursorOf(SECOND_SELL)
    ensures w5.store.dlq == [DeadLetter(SECOND_SELL, PositionUnderflow)]
    ensures w5.worker == Up(map[], ZERO_CURSOR, [], [], true)
  {
    var a, b := FIRST_SELL, SECOND_SELL;
    LetterRaceTables();
    SellsRejected();
    OneEventPage(b);
    var w2 := Next(Next(START, Rebuild(true)), Append(b));
    assert w2.store == EMPTY_STORE.(log := [b]) && w2.worker == Up(map[], ZERO_CURSOR, [], [], false);
    hide ApplyEvent, EligibleBatch, Behind, Take, Insert;
    var w3 := Next(w2, Fetch(2, 0));
    assert w3.worker == Up(map[], ZERO_CURSOR, [b], [], false) && w3.store == w2.store;
    var w4 := Next(w3, Append(a));
    assert w4.worker == w3.worker && w4.store == w3.store.(log := [a, b]);
    LetterKept(w4, false);
    hide Next;
    w5 := Next(w4, DeadLetterNext(false, Unacknowledged));
  }

  lemma LetterRaceSecond(w: World)
    requires w.store.log == [FIRST_SELL, SECOND_SELL] && w.worker == Up(map[], ZERO_CURSOR, [], [], true)
    ensures var w6 := Next(w, Fetch(2, 0));
            var w7 := Next(w6, DeadLetterNext(false, Committed));
            w7.store.cursor == CursorOf(FIRST_SELL) &&
            Next(w7, DeadLetterNext(false, Committed)).store.dlq ==
            w.store.dlq + [DeadLetter(FIRST_SELL, PositionUnderflow)] + [DeadLetter(SECOND_SELL, PositionUnderflow)]
  {
    LetterRaceTables();
    SellsRejected();
    hide ApplyEvent, EligibleBatch, Behind, Take, FIRST_SELL, SECOND_SELL;
    var w6 := Next(w, Fetch(2, 0));
    assert w6.store == w.store && w6.worker == Up(map[], ZERO_CURSOR, [FIRST_SELL, SECOND_SELL], [], false);
    hide Next;
    LetterCommitted(w6);
    LetterCommitted(Next(w6, DeadLetterNext(false, Committed)));
  }

  lemma LetterRaceUnfolds()
    ensures var w5 := Next(Next(Next(Next(Next(START, Rebuild(true)), Append(SECOND_SELL)), Fetch(2, 0)), Append(FIRST_SELL)),
                        DeadLetterNext(false, Unacknowledged));
            Run(START, LETTER_RACE[..5]) == w5 &&
            Run(START, LETTER_RACE[..7]) == Next(Next(w5, Fetch(2, 0)), DeadLetterNext(false, Committed)) &&
            Run(START, LETTER_RACE) ==
              Next(Next(Next(w5, Fetch(2, 0)), DeadLetterNext(false, Committed)), DeadLetterNext(false, Committed))
  {
    hide Next, SellEvent;
    var p := [Rebuild(true), Append(SECOND_SELL), Fetch(2, 0), Append(FIRST_SELL), DeadLetterNext(false, Unacknowledged)];
    var f, d := Fetch(2, 0), DeadLetterNext(false, Committed);
    RunFive(START, Rebuild(true), Append(SECOND_SELL), Fetch(2, 0), Append(FIRST_SELL), DeadLetterNext(false, Unacknowledged));
    RunSnoc(START, p, f);
    RunSnoc(START, p + [f], d);
    RunSnoc(START, p + [f] + [d], d);
    assert LETTER_RACE == p + [f] + [d] + [d];
    assert LETTER_RACE[..5] == p && LETTER_RACE[..7] == p + [f] + [d];
    hide Run;
  }

  // ----- where the cursor goes -----

  /** What holds in every run, torn or not: the page is in order and lies behind the worker's own cursor. */
  predicate PageAhead(w: World) {
    Sorted(w.store.log) &&
    (w.worker.Up? ==> Sorted(Page(w.worker)) && forall e :: e in Page(w.worker) ==> After(w.worker.cur, e))
  }

  lemma {:induction false} RunKeepsPageAhead(actions: seq<Action>)
    ensures PageAhead(Run(START, actions))
  {
    hide Next, PageAhead;
    if actions == [] {
      assert PageAhead(START) by {
        StartIsAhead();
      }
    } else {
      RunKeepsPageAhead(actions[..|actions| - 1]);
      NextKeepsPageAhead(Run(START, actions[..|actions| - 1]), actions[|actions| - 1]);
    }
  }

  lemma StartIsAhead()
    ensures PageAhead(START)
  {
  }

  lemma NextKeepsPageAhead(w: World, a: Action)
    requires PageAhead(w)
    ensures PageAhead(Next(w, a))
  {
    hide Sorted, After, ApplyEvent;
    if Enabled(w, a) {
      match a {
        case Append(ev) => AppendKeepsRest(w, ev);
        case Rebuild(readable) => RebuildAhead(w, readable);
        case Fetch(cutoff, watermark) => FetchAhead(w, cutoff, watermark);
        case ApplyNext => assert (w.worker.pending + [w.worker.todo[0]]) + w.worker.todo[1..] == w.worker.pending + w.worker.todo;
        case Flush(outcome) => FlushAhead(w, outcome);
        case DeadLetterNext(stale, outcome) => LetterAhead(w, stale, outcome);
        case _ =>
          assert Sorted([]) by {
            NothingSorted();
          }
      }
    }
  }

  lemma NothingSorted()
    ensures Sorted([])
  {
  }

  lemma RebuildAhead(w: World, readable: bool)
    requires PageAhead(w) && Enabled(w, Rebuild(readable))
    ensures PageAhead(Next(w, Rebuild(readable)))
  {
    NothingSorted();
    hide Sorted;
    assert w.store.log + [] == w.store.log && [] + w.store.log == w.store.log;
  }

  lemma FetchAhead(w: World, cutoff: int, watermark: int)
    requires PageAhead(w) && Enabled(w, Fetch(cutoff, watermark))
    ensures PageAhead(Next(w, Fetch(cutoff, watermark)))
  {
    var all := Behind(w.store.log, w.worker.cur);
    PageSorted(w.store.log, w.worker.cur, cutoff, watermark);
    BehindFacts(w.store.log, w.worker.cur);
    EligibleIsNext(all, cutoff, watermark);
    hide Behind, EligibleBatch, Take, Sorted, After;
    var page := EligibleBatch(Take(all, PAGE), cutoff, watermark, PAGE);
    assert forall i :: 0 <= i < |page| ==> page[i] == all[i];
  }

  lemma FlushAhead(w: World, outcome: Commit)
    requires PageAhead(w) && Enabled(w, Flush(outcome))
    ensures PageAhead(Next(w, Flush(outcome)))
  {
    NothingSorted();
    SplitSorted(w.worker.pending, w.worker.todo);
    RestBehindBatch(w.worker.pending, w.worker.todo);
    hide Sorted, After, WriteRows, Skipped, Handles, Touched;
  }

  lemma LetterAhead(w: World, stale: bool, outcome: Commit)
    requires PageAhead(w) && Enabled(w, DeadLetterNext(stale, outcome))
    ensures PageAhead(Next(w, DeadLetterNext(stale, outcome)))
  {
    NothingSorted();
    var ev, rest := w.worker.todo[0], w.worker.todo[1..];
    assert [ev] + rest == w.worker.todo;
    SplitSorted([ev], rest);
    RestBehindBatch([ev], rest);
    hide Sorted, After, Skipped, ApplyEvent;
    assert forall e :: e in rest ==> e in w.worker.todo;
  }

  /** The event on which a step leaves the stored cursor. */
  function CursorEvent(w: World, a: Action): Option<Event> {
    if !Enabled(w, a) then None
    else
      match a
      case Flush(outcome) => if outcome == Failed then None else Some(w.worker.pending[|w.worker.pending| - 1])
      case DeadLetterNext(_, outcome) => if outcome == Failed then None else Some(w.worker.todo[0])
      case _ => None
  }

  lemma CursorAfterStep(w: World, a: Action)
    ensures Next(w, a).store.cursor == match CursorEvent(w, a) case None => w.store.cursor case Some(e) => CursorOf(e)
  {
    hide ApplyEvent, Loaded, WriteRows, Touched, Insert, Skipped, EligibleBatch, Behind, Take, InsertSnapshot;
  }

  /** Nothing in the store keeps its cursor from going back. In any run it does so exactly when a step commits on an event
      in front of it, and then the worker was kept after a failure it was told of, fetched again, and its own cursor lies
      in front of the stored one. */
  lemma CursorGoesBackIff(actions: seq<Action>, a: Action)
    ensures var w := Run(START, actions);
            var c, d := w.store.cursor, Next(w, a).store.cursor;
            (d.Before(c) <==> CursorEvent(w, a).Some? && CursorOf(CursorEvent(w, a).value).Before(c)) &&
            (d.Before(c) && !c.IsZero() ==>
               w.torn && w.worker.Up? && (w.worker.cur.IsZero() || w.worker.cur.Before(c)))
  {
    hide Run, Good, Next, PageAhead, CursorEvent;
    var w := Run(START, actions);
    CursorAfterStep(w, a);
    RunKeepsPageAhead(actions);
    if !w.torn {
      StartIsGood();
      RunKeeps(START, actions);
      CursorMovesForward(w, a);
    }
    if CursorEvent(w, a).Some? {
      CommitsBehindOwn(w, a);
    }
  }

  lemma CommitsBehindOwn(w: World, a: Action)
    requires PageAhead(w) && CursorEvent(w, a).Some?
    ensures w.worker.Up? && After(w.worker.cur, CursorEvent(w, a).value)
  {
    hide Sorted, After, ApplyEvent;
    assert CursorEvent(w, a).value in Page(w.worker);
  }
}
