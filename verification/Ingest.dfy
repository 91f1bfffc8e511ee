/** Ingestion over all portfolios: what retries and the order of arrival mean for the logs. */
module Ingest {
  import opened Events
  import opened EventTable
  import opened Partition

  /** A request to append an event to the stream of a portfolio. A retry is a request with the same portfolio
      and idempotency key; its event id, time and payload may differ. */
  datatype Request = Request(portfolio: nat, ev: Event)

  datatype Answer = Inserted(id: nat) | Stored(id: nat) | Conflict

  /** The events table: one log per portfolio, listed in apply order. */
  type Table = map<nat, seq<Event>>

  function Log(t: Table, p: nat): seq<Event> {
    if p in t then t[p] else []
  }

  predicate KeyKnown(t: Table, p: nat, key: string) {
    exists e :: e in Log(t, p) && e.key == key
  }

  /** The id of the row with this portfolio and key. */
  function StoredId(log: seq<Event>, key: string): (id: nat)
    requires exists e :: e in log && e.key == key
    ensures exists e :: e in log && e.key == key && e.id == id
  {
    if log[0].key == key then assert log[0] in log; log[0].id
    else
      assert log == [log[0]] + log[1..];
      StoredId(log[1..], key)
  }

  /** The event id is the primary key of the whole table. */
  predicate IdKnown(t: Table, id: nat) {
    exists p :: p in t && exists e :: e in t[p] && e.id == id
  }

  /** A known key inserts nothing and is answered with the stored id. A known id under a new key fails. */
  function Answered(t: Table, r: Request): Answer {
    if KeyKnown(t, r.portfolio, r.ev.key) then Stored(StoredId(Log(t, r.portfolio), r.ev.key))
    else if IdKnown(t, r.ev.id) then Conflict
    else Inserted(r.ev.id)
  }

  function AppendTo(t: Table, r: Request): Table {
    if Answered(t, r).Inserted? then t[r.portfolio := Insert(Log(t, r.portfolio), r.ev)] else t
  }

  function AppendAll(reqs: seq<Request>): Table {
    if reqs == [] then map[] else AppendTo(AppendAll(reqs[..|reqs| - 1]), reqs[|reqs| - 1])
  }

  // ----- what the table always satisfies -----

  /** Every log is in order, with one row for each key and each id. */
  predicate LogOk(log: seq<Event>) {
    Sorted(log) && NoClash(log)
  }

  lemma InsertKeepsLogOk(log: seq<Event>, ev: Event)
    requires LogOk(log) && forall e :: e in log ==> !Clash(e, ev)
    ensures LogOk(Insert(log, ev)) && forall e :: e in Insert(log, ev) <==> e == ev || e in log
  {
    InsertKeepsOrder(log, ev);
    InsertKeepsNoClash(log, ev);
    hide Insert;
  }

  lemma NoClashCons(first: Event, rest: seq<Event>)
    requires NoClash(rest) && forall e :: e in rest ==> !Clash(first, e)
    ensures NoClash([first] + rest)
  {
    var log := [first] + rest;
    forall i, j | 0 <= i < j < |log|
      ensures !Clash(log[i], log[j])
    {
      assert log[j] == rest[j - 1] && (i > 0 ==> log[i] == rest[i - 1]);
    }
  }

  lemma {:induction false} InsertKeepsNoClash(log: seq<Event>, ev: Event)
    requires NoClash(log) && forall e :: e in log ==> !Clash(e, ev)
    ensures NoClash(Insert(log, ev))
    ensures forall e :: e in Insert(log, ev) ==> e == ev || e in log
  {
    if log == [] || InOrder(ev, log[0]) {
      NoClashCons(ev, log);
    } else {
      InsertKeepsNoClash(log[1..], ev);
      var rest := Insert(log[1..], ev);
      forall e | e in rest
        ensures !Clash(log[0], e)
      {
        if e != ev {
          var j :| 0 <= j < |log| - 1 && log[1..][j] == e;
          assert !Clash(log[0], log[j + 1]);
        }
      }
      NoClashCons(log[0], rest);
    }
  }

  ghost predicate TableOk(t: Table) {
    forall p :: LogOk(Log(t, p))
  }

  lemma AppendKeepsTableOk(t: Table, r: Request)
    requires TableOk(t)
    ensures TableOk(AppendTo(t, r))
  {
    if Answered(t, r).Inserted? {
      var log := Log(t, r.portfolio);
      forall e | e in log
        ensures !Clash(e, r.ev)
      {
      }
      InsertKeepsLogOk(log, r.ev);
      hide LogOk, Insert;
      forall p
        ensures LogOk(Log(AppendTo(t, r), p))
      {
        assert LogOk(Log(t, p));
      }
    }
  }

  /** At most one row per portfolio and idempotency key, whatever is sent. */
  lemma {:induction false} OneRowPerKey(reqs: seq<Request>)
    ensures TableOk(AppendAll(reqs))
  {
    if reqs != [] {
      OneRowPerKey(reqs[..|reqs| - 1]);
      AppendKeepsTableOk(AppendAll(reqs[..|reqs| - 1]), reqs[|reqs| - 1]);
      hide AppendTo, TableOk;
    }
  }

  // ----- retries -----

  lemma {:induction false} StoredIdOfInsert(log: seq<Event>, ev: Event, key: string)
    requires (exists e :: e in log && e.key == key) || ev.key == key
    requires forall e :: e in log ==> e.key != ev.key
    ensures (exists e :: e in Insert(log, ev) && e.key == key) &&
            StoredId(Insert(log, ev), key) == if ev.key == key then ev.id else StoredId(log, key)
  {
    if log == [] || InOrder(ev, log[0]) {
      assert Insert(log, ev) == [ev] + log;
      assert ev in Insert(log, ev);
      if ev.key != key {
        assert Insert(log, ev)[1..] == log;
        var e :| e in log && e.key == key;
        assert e in Insert(log, ev);
      }
    } else {
      assert log == [log[0]] + log[1..];
      var rest := Insert(log[1..], ev);
      assert Insert(log, ev) == [log[0]] + rest && Insert(log, ev)[1..] == rest;
      if log[0].key == key {
        assert log[0] in Insert(log, ev);
      } else {
        StoredIdOfInsert(log[1..], ev, key);
      }
    }
  }

  /** The stored id of a key never changes. */
  lemma StoredIdSticks(t: Table, r: Request, p: nat, key: string)
    requires KeyKnown(t, p, key)
    ensures KeyKnown(AppendTo(t, r), p, key)
    ensures StoredId(Log(AppendTo(t, r), p), key) == StoredId(Log(t, p), key)
  {
    if Answered(t, r).Inserted? && r.portfolio == p {
      StoredIdOfInsert(Log(t, p), r.ev, key);
      hide StoredId, Insert, IdKnown;
    }
  }

  lemma InsertedIsStored(t: Table, r: Request)
    requires !Answered(t, r).Conflict?
    ensures var u := AppendTo(t, r);
            KeyKnown(u, r.portfolio, r.ev.key) && StoredId(Log(u, r.portfolio), r.ev.key) == Answered(t, r).id
  {
    if Answered(t, r).Inserted? {
      StoredIdOfInsert(Log(t, r.portfolio), r.ev, r.ev.key);
      hide StoredId, Insert, IdKnown;
    }
  }

  lemma {:induction false} KeyStaysKnown(reqs: seq<Request>, i: nat, p: nat, key: string)
    requires i <= |reqs| && KeyKnown(AppendAll(reqs[..i]), p, key)
    ensures KeyKnown(AppendAll(reqs), p, key)
    ensures StoredId(Log(AppendAll(reqs), p), key) == StoredId(Log(AppendAll(reqs[..i]), p), key)
  {
    if i == |reqs| {
      assert reqs[..i] == reqs;
    } else {
      var prefix := reqs[..|reqs| - 1];
      assert prefix[..i] == reqs[..i];
      KeyStaysKnown(prefix, i, p, key);
      StoredIdSticks(AppendAll(prefix), reqs[|reqs| - 1], p, key);
      hide KeyKnown, StoredId, AppendTo;
    }
  }

  /** Once a request has been answered with an id, every later request of the same portfolio and key is
      answered with that id. */
  lemma FirstAnswerSticks(reqs: seq<Request>, i: nat, j: nat)
    requires i < j < |reqs| && reqs[i].portfolio == reqs[j].portfolio && reqs[i].ev.key == reqs[j].ev.key
    requires !Answered(AppendAll(reqs[..i]), reqs[i]).Conflict?
    ensures Answered(AppendAll(reqs[..j]), reqs[j]) == Stored(Answered(AppendAll(reqs[..i]), reqs[i]).id)
  {
    var a, b := reqs[..i + 1], reqs[..j];
    assert a[..|a| - 1] == reqs[..i] && a[|a| - 1] == reqs[i];
    assert AppendAll(a) == AppendTo(AppendAll(reqs[..i]), reqs[i]);
    InsertedIsStored(AppendAll(reqs[..i]), reqs[i]);
    assert b[..i + 1] == a;
    KeyStaysKnown(b, i + 1, reqs[i].portfolio, reqs[i].ev.key);
    hide AppendAll, AppendTo, StoredId, KeyKnown, IdKnown;
  }

  /** The request repeats an earlier portfolio and key. */
  predicate Retry(reqs: seq<Request>, r: Request) {
    exists x :: x in reqs && x.portfolio == r.portfolio && x.ev.key == r.ev.key
  }

  /** The sequence with retries removed. */
  function WithoutRetries(reqs: seq<Request>): seq<Request> {
    if reqs == [] then []
    else
      var p, r := reqs[..|reqs| - 1], reqs[|reqs| - 1];
      WithoutRetries(p) + if Retry(p, r) then [] else [r]
  }

  /** Event ids are fresh, as random UUIDs are. */
  predicate FreshIds(reqs: seq<Request>) {
    forall i, j :: 0 <= i < j < |reqs| ==> reqs[i].ev.id != reqs[j].ev.id
  }

  /** With fresh ids every key that was sent is known, and every stored row was sent. */
  lemma {:induction false} SentIsStored(reqs: seq<Request>, p: nat)
    requires FreshIds(reqs)
    ensures forall key :: KeyKnown(AppendAll(reqs), p, key) <==> exists x :: x in reqs && x.portfolio == p && x.ev.key == key
    ensures forall e :: e in Log(AppendAll(reqs), p) ==> Request(p, e) in reqs
    decreases |reqs|, 0
  {
    if reqs != [] {
      var q, r := reqs[..|reqs| - 1], reqs[|reqs| - 1];
      assert reqs == q + [r];
      SentIsStored(q, p);
      SentIsStored(q, r.portfolio);
      NewIdIsUnknown(q, r);
      StoredAfter(AppendAll(q), r, p);
      hide IdKnown, StoredId, Insert;
      forall key
        ensures KeyKnown(AppendAll(reqs), p, key) <==> exists x :: x in reqs && x.portfolio == p && x.ev.key == key
      {
        if KeyKnown(AppendAll(q), p, key) {
          var x :| x in q && x.portfolio == p && x.ev.key == key;
          assert x in reqs;
        }
      }
    }
  }

  lemma {:induction false} NewIdIsUnknown(q: seq<Request>, r: Request)
    requires FreshIds(q + [r])
    ensures !IdKnown(AppendAll(q), r.ev.id)
    decreases |q|, 1
  {
    assert FreshIds(q) by {
      assert forall i :: 0 <= i < |q| ==> (q + [r])[i] == q[i];
    }
    assert (q + [r])[|q|] == r;
    var t := AppendAll(q);
    forall p, e: Event | p in t && e in t[p]
      ensures e.id != r.ev.id
    {
      SentIsStored(q, p);
      var i :| 0 <= i < |q| && q[i] == Request(p, e);
      assert (q + [r])[i] == q[i];
    }
    hide AppendAll;
  }

  lemma StoredAfter(t: Table, r: Request, p: nat)
    requires !IdKnown(t, r.ev.id)
    ensures forall key :: KeyKnown(AppendTo(t, r), p, key) <==> KeyKnown(t, p, key) || (p == r.portfolio && key == r.ev.key)
    ensures forall e :: e in Log(AppendTo(t, r), p) ==> e in Log(t, p) || (p == r.portfolio && e == r.ev)
  {
    hide IdKnown, StoredId;
    InsertMembers(Log(t, r.portfolio), r.ev);
    hide Insert;
  }

  lemma {:induction false} InsertMembers(log: seq<Event>, ev: Event)
    ensures forall e :: e in Insert(log, ev) <==> e == ev || e in log
  {
    if log != [] && !InOrder(ev, log[0]) {
      assert log == [log[0]] + log[1..];
      InsertMembers(log[1..], ev);
    }
  }

  /** Retry-insensitive ingestion: any sequence of requests leaves the logs that the sequence without its
      retries leaves, hence the same fold. */
  lemma {:induction false} RetriesDoNotMatter(reqs: seq<Request>)
    requires FreshIds(reqs)
    ensures AppendAll(reqs) == AppendAll(WithoutRetries(reqs))
  {
    if reqs != [] {
      var p, r := reqs[..|reqs| - 1], reqs[|reqs| - 1];
      RetriesDoNotMatter(p);
      hide StoredId, IdKnown, Insert, KeyKnown, Log;
      if Retry(p, r) {
        SentIsStored(p, r.portfolio);
        assert KeyKnown(AppendAll(p), r.portfolio, r.ev.key);
        assert WithoutRetries(p) + [] == WithoutRetries(p);
      } else {
        var d := WithoutRetries(p);
        assert (d + [r])[..|d|] == d;
      }
    }
  }

  // ----- order of arrival -----

  predicate NoRetries(reqs: seq<Request>) {
    forall i, j :: 0 <= i < j < |reqs| ==> reqs[i].portfolio != reqs[j].portfolio || reqs[i].ev.key != reqs[j].ev.key
  }

  /** Without retries every event that was sent is stored. */
  lemma {:induction false} AllStored(reqs: seq<Request>, p: nat)
    requires FreshIds(reqs) && NoRetries(reqs)
    ensures forall e :: e in Log(AppendAll(reqs), p) <==> Request(p, e) in reqs
  {
    if reqs != [] {
      var q, r := reqs[..|reqs| - 1], reqs[|reqs| - 1];
      assert reqs == q + [r];
      AllStored(q, p);
      SentIsStored(q, r.portfolio);
      NewIdIsUnknown(q, r);
      assert !KeyKnown(AppendAll(q), r.portfolio, r.ev.key);
      InsertMembers(Log(AppendAll(q), r.portfolio), r.ev);
      hide KeyKnown, IdKnown, StoredId, Insert;
    }
  }

  /** The order of arrival does not matter: two sequences of the same requests leave the same logs. */
  lemma ArrivalOrderIsIrrelevant(a: seq<Request>, b: seq<Request>, p: nat)
    requires FreshIds(a) && NoRetries(a) && FreshIds(b) && NoRetries(b)
    requires forall r :: r in a <==> r in b
    ensures Log(AppendAll(a), p) == Log(AppendAll(b), p)
  {
    AllStored(a, p);
    AllStored(b, p);
    OneRowPerKey(a);
    OneRowPerKey(b);
    hide AppendAll, Log;
    SortedUnique(Log(AppendAll(a), p), Log(AppendAll(b), p));
  }

  /** For one portfolio an append of an event with an unknown id is the append of module Partition. */
  lemma AppendIsPartitionAppend(t: Table, r: Request, st: Store)
    requires st.log == Log(t, r.portfolio) && (IdKnown(t, r.ev.id) ==> exists e :: e in st.log && e.id == r.ev.id)
    ensures Log(AppendTo(t, r), r.portfolio) == Appended(st, r.ev).log
  {
    if r.portfolio in t && exists e :: e in st.log && e.id == r.ev.id {
      assert IdKnown(t, r.ev.id);
    }
    hide StoredId, Insert;
  }
}
