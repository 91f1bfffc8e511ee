/** The events table of one partition, listed in apply order (event_time, event_id). */
module EventTable {
  import opened Events

  /** Two rows clash on the primary key or on the unique (portfolio_id, idempotency_key) index. */
  predicate Clash(a: Event, b: Event) {
    a.id == b.id || a.key == b.key
  }

  predicate NoClash(log: seq<Event>) {
    forall i, j :: 0 <= i < j < |log| ==> !Clash(log[i], log[j])
  }

  function Insert(log: seq<Event>, ev: Event): seq<Event> {
    if log == [] || InOrder(ev, log[0]) then [ev] + log else [log[0]] + Insert(log[1..], ev)
  }

  /** The rows of a fetch after a cursor, without the page limit. */
  function Behind(log: seq<Event>, cur: Cursor): seq<Event> {
    if log == [] then []
    else if After(cur, log[0]) then [log[0]] + Behind(log[1..], cur)
    else Behind(log[1..], cur)
  }

  function Take(es: seq<Event>, limit: nat): seq<Event> {
    if |es| <= limit then es else es[..limit]
  }

  lemma {:induction false} InsertKeepsOrder(log: seq<Event>, ev: Event)
    requires Sorted(log)
    requires forall e :: e in log ==> CursorOf(e) != CursorOf(ev)
    ensures Sorted(Insert(log, ev))
    ensures forall e :: e in Insert(log, ev) <==> e == ev || e in log
  {
    if log != [] && !InOrder(ev, log[0]) {
      assert log == [log[0]] + log[1..];
      InsertKeepsOrder(log[1..], ev);
      forall e | e in Insert(log[1..], ev)
        ensures InOrder(log[0], e)
      {
        assert e == ev || e in log[1..];
      }
    }
  }

  lemma {:induction false} InsertAddsOne(log: seq<Event>, ev: Event)
    ensures multiset(Insert(log, ev)) == multiset(log) + multiset{ev}
  {
    if log != [] && !InOrder(ev, log[0]) {
      assert log == [log[0]] + log[1..];
      InsertAddsOne(log[1..], ev);
    }
  }

  /** Exactly the rows behind the cursor, in order. */
  lemma {:induction false} BehindFacts(log: seq<Event>, cur: Cursor)
    ensures forall e :: e in Behind(log, cur) <==> e in log && After(cur, e)
    ensures Sorted(log) ==> Sorted(Behind(log, cur))
    ensures |Behind(log, cur)| <= |log|
  {
    if log != [] {
      assert log == [log[0]] + log[1..];
      BehindFacts(log[1..], cur);
      if Sorted(log) {
        forall e | e in Behind(log[1..], cur)
          ensures InOrder(log[0], e)
        {
          assert e in log[1..];
        }
      }
    }
  }

  /** A page: in order, within the limit, only rows behind the cursor; and a row behind the cursor that is not
      in it lies behind its last row, which then is the limit-th. */
  lemma PageFacts(log: seq<Event>, cur: Cursor, limit: nat)
    requires Sorted(log) && limit > 0
    ensures var page := Take(Behind(log, cur), limit);
            |page| <= limit && Sorted(page) && (forall e :: e in page ==> e in log && After(cur, e)) &&
            forall e :: e in log && After(cur, e) && e !in page ==>
              |page| == limit && InOrder(page[limit - 1], e)
  {
    BehindFacts(log, cur);
    var all := Behind(log, cur);
    hide Behind, After;
    var page := Take(all, limit);
    assert forall k :: 0 <= k < |page| ==> page[k] == all[k] && page[k] in page;
    forall e | e in log && After(cur, e) && e !in page
      ensures |page| == limit && InOrder(page[limit - 1], e)
    {
      var i :| 0 <= i < |all| && all[i] == e;
      assert InOrder(all[limit - 1], all[i]);
    }
  }

  lemma TailElements(a: seq<Event>)
    requires Sorted(a) && a != []
    ensures Sorted(a[1..])
    ensures forall e :: e in a[1..] <==> e in a && e != a[0]
  {
    assert a == [a[0]] + a[1..];
    forall e | e in a[1..]
      ensures InOrder(a[0], e)
    {
    }
  }

  /** A sorted sequence is determined by its elements. */
  lemma {:induction false} SortedUnique(a: seq<Event>, b: seq<Event>)
    requires Sorted(a) && Sorted(b)
    requires forall e :: e in a <==> e in b
    ensures a == b
  {
    assert |a| > 0 ==> a[0] in b;
    assert |b| > 0 ==> b[0] in a;
    if a != [] {
      assert a[0] == b[0];
      TailElements(a);
      TailElements(b);
      SortedUnique(a[1..], b[1..]);
    }
  }
}
