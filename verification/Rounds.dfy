/** The rounds of a pump: one page fetched, cut at the watermark and applied. */
module Rounds {
  import opened Events
  import opened EventTable
  import opened Watermark
  import opened Pump
  import opened Arrival

  /** The latest event time of a log listed in cursor order. */
  function MaxTime(log: seq<Event>): int {
    if log == [] then 0 else log[|log| - 1].time
  }

  /** What a pump that went from cursor from to cursor to leaves: if it is not done, the same as from to. */
  ghost predicate PumpLeaves(log: seq<Event>, from: Cursor, to: Cursor, again: bool, watermark: nat) {
    var cutoff := MaxTime(log) - watermark;
    Rest(Behind(log, from), cutoff, watermark) ==
    if again then Rest(Behind(log, to), cutoff, watermark) else Behind(log, to)
  }

  /** One round that asks for another has made progress. */
  ghost predicate RoundLeaves(log: seq<Event>, from: Cursor, to: Cursor, again: bool, watermark: nat) {
    PumpLeaves(log, from, to, again, watermark) && (again ==> |Behind(log, to)| < |Behind(log, from)|)
  }

  lemma PumpStarts(log: seq<Event>, cur: Cursor, watermark: nat)
    ensures PumpLeaves(log, cur, cur, true, watermark)
  {
  }

  lemma PumpOn(log: seq<Event>, from: Cursor, mid: Cursor, to: Cursor, again: bool, watermark: nat)
    requires PumpLeaves(log, from, mid, true, watermark) && RoundLeaves(log, mid, to, again, watermark)
    ensures PumpLeaves(log, from, to, again, watermark)
    ensures again ==> |Behind(log, to)| < |Behind(log, mid)|
  {
    hide Behind, Rest;
  }

  /** What a pump leaves, by its first round. */
  lemma RoundByRound(log: seq<Event>, cur: Cursor, watermark: nat, page: seq<Event>, eligible: seq<Event>)
    requires Sorted(log) && page == Take(Behind(log, cur), PAGE)
    requires eligible == EligibleBatch(page, MaxTime(log) - watermark, watermark, PAGE)
    ensures eligible == [] ==> RoundLeaves(log, cur, cur, false, watermark)
    ensures eligible != [] ==>
      RoundLeaves(log, cur, CursorOf(eligible[|eligible| - 1]), |eligible| == |page| && |page| == PAGE, watermark)
  {
    var pending := Behind(log, cur);
    assert eligible <= page <= pending;
    hide EligibleBatch;
    if eligible != [] {
      BehindAfterBatch(log, cur, eligible);
    }
    hide Behind, Take;
  }

  /** Two successful pumps on a log that does not change, as every start of a worker makes them, leave nothing
      behind the cursor exactly when fewer than 200 events behind it were newer than the cutoff. */
  lemma TwoPumpsDrainIff(log: seq<Event>, c0: Cursor, c1: Cursor, c2: Cursor, watermark: nat)
    requires Sorted(log) && PumpLeaves(log, c0, c1, false, watermark) && PumpLeaves(log, c1, c2, false, watermark)
    ensures var pending := Behind(log, c0);
            var cutoff := MaxTime(log) - watermark;
            Behind(log, c2) == [] <==> |pending| - Old(pending, cutoff) < PAGE
    ensures var pending := Behind(log, c0);
            var cutoff := MaxTime(log) - watermark;
            forall i :: 0 <= i < |pending| ==> (pending[i].time > cutoff <==> i >= Old(pending, cutoff))
  {
    hide Behind, Rest, Old, Sorted;
    var pending, cutoff := Behind(log, c0), MaxTime(log) - watermark;
    BehindFacts(log, c0);
    LatestTime(log);
    assert Pumps(pending, cutoff, watermark, 2) == Behind(log, c2) by {
      assert Pumps(pending, cutoff, watermark, 0) == pending;
      assert Pumps(pending, cutoff, watermark, 1) == Behind(log, c1);
    }
    DrainIff(pending, MaxTime(log), watermark, 2);
  }

  /** Fewer than a page of the events behind the cursor are newer than the cutoff. */
  ghost predicate Few(log: seq<Event>, cur: Cursor, watermark: nat) {
    |Behind(log, cur)| - Old(Behind(log, cur), MaxTime(log) - watermark) < PAGE
  }

  lemma Drained(log: seq<Event>, c0: Cursor, c1: Cursor, c2: Cursor, watermark: nat)
    requires Sorted(log) && Few(log, c0, watermark)
    requires PumpLeaves(log, c0, c1, false, watermark) && PumpLeaves(log, c1, c2, false, watermark)
    ensures Behind(log, c2) == []
  {
    TwoPumpsDrainIff(log, c0, c1, c2, watermark);
    hide Behind, Old;
  }

  lemma LatestTime(log: seq<Event>)
    requires Sorted(log)
    ensures forall e :: e in log ==> e.time <= MaxTime(log)
  {
    forall e | e in log
      ensures e.time <= MaxTime(log)
    {
      var i :| 0 <= i < |log| && log[i] == e;
      assert i < |log| - 1 ==> InOrder(log[i], log[|log| - 1]);
    }
  }
}
