/** The order in which Go compares strings and byte slices. */
module Lexicographic {
  /** -1, 0 or 1. */
  function Compare(a: seq<int>, b: seq<int>): (r: int)
    ensures -1 <= r <= 1
  {
    if a == [] then (if b == [] then 0 else -1)
    else if b == [] then 1
    else if a[0] < b[0] then -1
    else if a[0] > b[0] then 1
    else Compare(a[1..], b[1..])
  }

  lemma {:induction false} CompareEqual(a: seq<int>, b: seq<int>)
    ensures Compare(a, b) == 0 <==> a == b
  {
    if a != [] && b != [] {
      CompareEqual(a[1..], b[1..]);
      assert a == [a[0]] + a[1..] && b == [b[0]] + b[1..];
    }
  }

  /** Less is a proper prefix, or less at the first place where the two differ. */
  lemma {:induction false} CompareRead(a: seq<int>, b: seq<int>)
    ensures Compare(a, b) == -1 <==>
            exists k :: 0 <= k <= |a| && k < |b| && a[..k] == b[..k] && (k < |a| ==> a[k] < b[k])
  {
    if a == [] || b == [] {
      assert a[..0] == b[..0] == [];
    } else {
      forall k | 0 < k <= |a| && k < |b| && a[..k] == b[..k]
        ensures a[0] == b[0] && a[1..][..k - 1] == b[1..][..k - 1]
      {
        assert a[..k][0] == b[..k][0];
        assert a[1..][..k - 1] == a[..k][1..] && b[1..][..k - 1] == b[..k][1..];
      }
      assert a[..0] == b[..0] == [];
      CompareRead(a[1..], b[1..]);
      if a[0] == b[0] {
        PrefixFurther(a, b);
      }
    }
  }

  lemma PrefixFurther(a: seq<int>, b: seq<int>)
    requires a != [] && b != [] && a[0] == b[0]
    ensures forall k :: 0 <= k <= |a[1..]| && k < |b[1..]| && a[1..][..k] == b[1..][..k] ==> a[..k + 1] == b[..k + 1]
  {
    forall k | 0 <= k <= |a[1..]| && k < |b[1..]| && a[1..][..k] == b[1..][..k]
      ensures a[..k + 1] == b[..k + 1]
    {
      assert a[..k + 1] == [a[0]] + a[1..][..k] && b[..k + 1] == [b[0]] + b[1..][..k];
    }
  }

  lemma {:induction false} CompareMirrors(a: seq<int>, b: seq<int>)
    ensures Compare(b, a) == -Compare(a, b)
  {
    if a != [] && b != [] {
      CompareMirrors(a[1..], b[1..]);
    }
  }

  lemma {:induction false} CompareTransitive(a: seq<int>, b: seq<int>, c: seq<int>)
    requires Compare(a, b) == -1 && Compare(b, c) == -1
    ensures Compare(a, c) == -1
  {
    if a != [] && b != [] && c != [] && a[0] == b[0] == c[0] {
      CompareTransitive(a[1..], b[1..], c[1..]);
    }
  }

  /** Where the first parts have one length, the second parts matter only if the first are equal. */
  lemma {:induction false} CompareConcat(a: seq<int>, b: seq<int>, c: seq<int>, d: seq<int>)
    requires |a| == |c|
    ensures Compare(a + b, c + d) == if Compare(a, c) != 0 then Compare(a, c) else Compare(b, d)
  {
    if a == [] {
      assert a + b == b && c + d == d;
    } else {
      CompareConcat(a[1..], b, c[1..], d);
      assert (a + b)[1..] == a[1..] + b && (c + d)[1..] == c[1..] + d;
    }
  }

  function Codes(s: string): seq<int> {
    seq(|s|, i requires 0 <= i < |s| => s[i] as int)
  }

  lemma CodesInjective(a: string, b: string)
    requires Codes(a) == Codes(b)
    ensures a == b
  {
    assert |Codes(a)| == |a| && |Codes(b)| == |b|;
    forall i | 0 <= i < |a|
      ensures a[i] == b[i]
    {
      assert Codes(a)[i] == Codes(b)[i];
    }
  }

  predicate Less(a: string, b: string) {
    Compare(Codes(a), Codes(b)) == -1
  }

  /** The string order is total: exactly one of less, equal and greater. */
  lemma LessTotal(a: string, b: string)
    ensures (Less(a, b) || Less(b, a)) <==> a != b
    ensures !(Less(a, b) && Less(b, a))
  {
    CompareEqual(Codes(a), Codes(b));
    CompareMirrors(Codes(a), Codes(b));
    if Codes(a) == Codes(b) {
      CodesInjective(a, b);
    }
    hide Codes, Compare;
  }

  lemma LessTransitive(a: string, b: string, c: string)
    requires Less(a, b) && Less(b, c)
    ensures Less(a, c)
  {
    CompareTransitive(Codes(a), Codes(b), Codes(c));
  }
}
