/** Sorted lists of distinct strings. */
module SortedStrings {
  import opened Lexicographic

  predicate Ascending(symbols: seq<string>) {
    forall i, j :: 0 <= i < j < |symbols| ==> Less(symbols[i], symbols[j])
  }

  function InsertSymbol(symbols: seq<string>, s: string): seq<string> {
    if symbols == [] || Less(s, symbols[0]) then [s] + symbols else [symbols[0]] + InsertSymbol(symbols[1..], s)
  }

  lemma {:induction false} InsertSymbolFacts(symbols: seq<string>, s: string)
    requires Ascending(symbols) && s !in symbols
    ensures Ascending(InsertSymbol(symbols, s))
    ensures forall x :: x in InsertSymbol(symbols, s) <==> x == s || x in symbols
  {
    hide Less;
    if symbols == [] {
    } else if Less(s, symbols[0]) {
      forall j | 0 <= j < |symbols|
        ensures Less(s, symbols[j])
      {
        if j > 0 {
          LessTransitive(s, symbols[0], symbols[j]);
        }
      }
    } else {
      var rest := InsertSymbol(symbols[1..], s);
      assert symbols == [symbols[0]] + symbols[1..];
      InsertSymbolFacts(symbols[1..], s);
      LessTotal(s, symbols[0]);
      forall x | x in rest
        ensures Less(symbols[0], x)
      {
        if x != s {
          assert x in symbols[1..];
        }
      }
    }
  }

  /** The strings of the set in order. */
  method Sort(keys: set<string>) returns (symbols: seq<string>)
    ensures Ascending(symbols) && forall s :: s in symbols <==> s in keys
  {
    hide Ascending, InsertSymbol;
    symbols := [];
    assert Ascending(symbols) by {
      NoneAscending();
    }
    var todo := keys;
    while todo != {}
      invariant todo <= keys && Ascending(symbols)
      invariant forall s :: s in symbols <==> s in keys - todo
      decreases |todo|
    {
      var s :| s in todo;
      InsertSymbolFacts(symbols, s);
      symbols := InsertSymbol(symbols, s);
      todo := todo - {s};
    }
  }

  lemma NoneAscending()
    ensures Ascending([])
  {
  }

  lemma {:induction false} AscendingUnique(a: seq<string>, b: seq<string>)
    requires Ascending(a) && Ascending(b) && forall s :: s in a <==> s in b
    ensures a == b
  {
    hide Less;
    assert |a| > 0 ==> a[0] in b;
    assert |b| > 0 ==> b[0] in a;
    if a != [] {
      LessTotal(a[0], b[0]);
      AscendingTail(a);
      AscendingTail(b);
      AscendingUnique(a[1..], b[1..]);
    }
  }

  lemma AscendingTail(a: seq<string>)
    requires Ascending(a) && a != []
    ensures Ascending(a[1..]) && forall s :: s in a[1..] <==> s in a && s != a[0]
  {
    forall s | s in a[1..]
      ensures s != a[0]
    {
      var i :| 0 <= i < |a| - 1 && a[1..][i] == s;
      LessTotal(a[0], a[i + 1]);
    }
    hide Less;
    assert a == [a[0]] + a[1..];
  }

  lemma AscendingDistinct(a: seq<string>, i: nat, j: nat)
    requires Ascending(a) && i < |a| && j < |a| && a[i] == a[j]
    ensures i == j
  {
    LessTotal(a[i], a[j]);
    hide Less;
  }
}
