/** How far one pump of a partition gets on a log that does not change. */
module Pump {
  import opened Events
  import opened EventTable
  import opened Watermark

  /** What is left behind the cursor after one pump: pages are applied while they are full and wholly
      eligible. */
  function Rest(pending: seq<Event>, cutoff: int, watermark: int): seq<Event>
    decreases |pending|
  {
    var page := Take(pending, PAGE);
    var eligible := EligibleBatch(page, cutoff, watermark, PAGE);
    if eligible == [] then pending
    else if |eligible| < |page| || |page| < PAGE then pending[|eligible|..]
    else Rest(pending[|eligible|..], cutoff, watermark)
  }

  /** How many events the cutoff lets through; in cursor order they come first. */
  function Old(pending: seq<Event>, cutoff: int): (n: nat)
    ensures n <= |pending|
  {
    |EligiblePrefix(pending, cutoff)|
  }

  lemma OldAndNew(pending: seq<Event>, cutoff: int)
    requires Sorted(pending)
    ensures var n := Old(pending, cutoff);
            (forall i :: 0 <= i < n ==> pending[i].time <= cutoff) &&
            (forall i :: n <= i < |pending| ==> pending[i].time > cutoff)
  {
    var n := Old(pending, cutoff);
    var r := EligiblePrefix(pending, cutoff);
    forall i | 0 <= i < n
      ensures pending[i].time <= cutoff
    {
      assert r[i] in r;
    }
    forall i | n <= i < |pending|
      ensures pending[i].time > cutoff
    {
      if n < i {
        assert InOrder(pending[n], pending[i]);
      }
    }
  }

  /** The old prefix of a part is the part's share of the old prefix. */
  lemma {:induction false} OldOfDrop(pending: seq<Event>, cutoff: int, k: nat)
    requires k <= Old(pending, cutoff)
    ensures Old(pending[k..], cutoff) == Old(pending, cutoff) - k
  {
    if k == 0 {
      assert pending[0..] == pending;
    } else {
      OldOfDrop(pending[1..], cutoff, k - 1);
      assert pending[1..][k - 1..] == pending[k..];
    }
  }

  lemma {:induction false} OldOfTake(pending: seq<Event>, cutoff: int, limit: nat)
    ensures Old(Take(pending, limit), cutoff) ==
            if Old(pending, cutoff) <= limit then Old(pending, cutoff) else limit
  {
    var page := Take(pending, limit);
    if limit > 0 && pending != [] {
      OldOfTake(pending[1..], cutoff, limit - 1);
      OldUnfolds(pending, cutoff);
      OldUnfolds(page, cutoff);
      hide Old;
      assert page[1..] == Take(pending[1..], limit - 1);
    }
  }

  lemma OldUnfolds(pending: seq<Event>, cutoff: int)
    requires pending != []
    ensures Old(pending, cutoff) == if pending[0].time > cutoff then 0 else 1 + Old(pending[1..], cutoff)
  {
  }

  /** One pump leaves the newer events, all of them or none: none when they fit into the partial page that
      is applied as a whole, that is when the old events fill whole pages. */
  lemma {:induction false} OnePump(pending: seq<Event>, cutoff: int, watermark: int)
    requires Sorted(pending) && watermark > 0
    ensures var n := Old(pending, cutoff);
            Rest(pending, cutoff, watermark) ==
            if n % 200 == 0 && |pending| - n < PAGE then [] else pending[n..]
    decreases |pending|
  {
    var n := Old(pending, cutoff);
    RestUnfolds(pending, cutoff, watermark);
    hide Rest, Old, Sorted;
    if n >= PAGE {
      OldOfDrop(pending, cutoff, PAGE);
      SortedDrop(pending, PAGE);
      OnePump(pending[PAGE..], cutoff, watermark);
      assert pending[PAGE..][n - PAGE..] == pending[n..];
      ModuloPage(n);
    } else {
      assert |pending| == n ==> pending[n..] == [];
      assert pending[0..] == pending;
    }
  }

  /** One round of a pump, by the number of old events. */
  lemma RestUnfolds(pending: seq<Event>, cutoff: int, watermark: int)
    requires watermark > 0
    ensures var n := Old(pending, cutoff);
            Rest(pending, cutoff, watermark) ==
            if n >= PAGE then Rest(pending[PAGE..], cutoff, watermark)
            else if n > 0 then pending[n..]
            else if |pending| < PAGE then []
            else pending
  {
    var page := Take(pending, PAGE);
    var eligible := EligibleBatch(page, cutoff, watermark, PAGE);
    OldOfTake(pending, cutoff, PAGE);
    var prefix := EligiblePrefix(page, cutoff);
    assert prefix <= page;
    assert |prefix| == if Old(pending, cutoff) <= PAGE then Old(pending, cutoff) else PAGE;
    assert eligible == if prefix == [] && 0 < |page| < PAGE then page else prefix;
    hide Old, EligiblePrefix, EligibleBatch;
    assert |prefix| == |page| ==> prefix == page;
  }

  lemma ModuloPage(n: nat)
    requires n >= PAGE
    ensures n % 200 == (n - PAGE) % 200
  {
  }

  lemma SortedDrop(pending: seq<Event>, k: nat)
    requires Sorted(pending) && k <= |pending|
    ensures Sorted(pending[k..])
  {
    forall i, j | 0 <= i < j < |pending[k..]|
      ensures InOrder(pending[k..][i], pending[k..][j])
    {
      assert InOrder(pending[k + i], pending[k + j]);
    }
  }

  /** With the watermark switched off the cutoff is the greatest event time, and one pump drains. */
  lemma {:induction false} OnePumpWithoutWatermark(pending: seq<Event>, maxTime: int)
    requires forall e :: e in pending ==> e.time <= maxTime
    ensures Rest(pending, maxTime, 0) == []
    decreases |pending|
  {
    if pending != [] {
      var page := Take(pending, PAGE);
      AllOld(page, maxTime);
      OnePumpWithoutWatermark(pending[|page|..], maxTime);
    }
  }

  lemma {:induction false} AllOld(pending: seq<Event>, cutoff: int)
    requires forall e :: e in pending ==> e.time <= cutoff
    ensures EligiblePrefix(pending, cutoff) == pending
  {
    if pending != [] {
      AllOld(pending[1..], cutoff);
    }
  }

  function Pumps(pending: seq<Event>, cutoff: int, watermark: int, n: nat): seq<Event> {
    if n == 0 then pending else Rest(Pumps(pending, cutoff, watermark, n - 1), cutoff, watermark)
  }

  /** Drain characterisation. On a fixed log with greatest event time maxTime and watermark w, two pumps,
      or any larger number, drain the partition exactly when fewer than 200 pending events are newer than
      maxTime - w. Otherwise precisely the newer events stay, however often the worker pumps. */
  lemma {:induction false} DrainIff(pending: seq<Event>, maxTime: int, watermark: nat, n: nat)
    requires Sorted(pending) && n >= 2
    requires forall e :: e in pending ==> e.time <= maxTime
    ensures var cutoff := maxTime - watermark;
            var newer := pending[Old(pending, cutoff)..];
            (forall i :: 0 <= i < |pending| ==> (pending[i].time > cutoff <==> i >= Old(pending, cutoff))) &&
            Pumps(pending, cutoff, watermark, n) == if |newer| < PAGE then [] else newer
  {
    hide Rest, Old, Sorted;
    var cutoff := maxTime - watermark;
    OldAndNew(pending, cutoff);
    if n > 2 {
      DrainIff(pending, maxTime, watermark, n - 1);
      PumpAgain(pending, maxTime, watermark);
    } else {
      FirstPump(pending, maxTime, watermark);
      PumpAgain(pending, maxTime, watermark);
      assert Pumps(pending, cutoff, watermark, 1) == Rest(Pumps(pending, cutoff, watermark, 0), cutoff, watermark);
    }
  }

  lemma FirstPump(pending: seq<Event>, maxTime: int, watermark: nat)
    requires Sorted(pending) && forall e :: e in pending ==> e.time <= maxTime
    ensures var cutoff := maxTime - watermark;
            var r := Rest(pending, cutoff, watermark);
            r == pending[Old(pending, cutoff)..] || (r == [] && |pending[Old(pending, cutoff)..]| < PAGE)
  {
    hide Rest, Sorted;
    if watermark > 0 {
      hide Old;
      OnePump(pending, maxTime - watermark, watermark);
    } else {
      OnePumpWithoutWatermark(pending, maxTime);
      AllOld(pending, maxTime);
      assert pending[|pending|..] == [];
    }
  }

  /** Pumping what only consists of newer events: all or nothing. */
  lemma PumpAgain(pending: seq<Event>, maxTime: int, watermark: nat)
    requires Sorted(pending) && forall e :: e in pending ==> e.time <= maxTime
    ensures var cutoff := maxTime - watermark;
            var newer := pending[Old(pending, cutoff)..];
            Rest(newer, cutoff, watermark) == (if |newer| < PAGE then [] else newer) &&
            Rest([], cutoff, watermark) == []
  {
    var cutoff := maxTime - watermark;
    var k := Old(pending, cutoff);
    var newer := pending[k..];
    SortedDrop(pending, k);
    if watermark > 0 {
      OldOfDrop(pending, cutoff, k);
      OnePump(newer, cutoff, watermark);
      assert newer[0..] == newer;
    } else {
      AllOld(pending, maxTime);
      assert newer == [];
    }
    RestOfNothing(cutoff, watermark);
    hide Rest, Old;
  }

  lemma RestOfNothing(cutoff: int, watermark: int)
    ensures Rest([], cutoff, watermark) == []
  {
  }
}
