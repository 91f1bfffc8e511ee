/** Event ids as bytes, as numbers and as text, and the orders built on them. */
module Uuids {
  import opened Events
  import opened Lexicographic

  /** Sixteen bytes. */
  type Uuid = u: seq<int> | |u| == 16 && forall i :: 0 <= i < 16 ==> 0 <= u[i] < 256
    witness seq(16, i => 0)

  predicate Bytes(u: seq<int>) {
    forall i :: 0 <= i < |u| ==> 0 <= u[i] < 256
  }

  /** The bytes read as a big-endian number: the form in which the model keeps event ids. */
  function Number(u: seq<int>): (n: nat)
    requires Bytes(u)
  {
    if u == [] then 0 else 256 * Number(u[..|u| - 1]) + u[|u| - 1]
  }

  /** Byte order is numeric order. */
  lemma {:induction false} NumberFollowsBytes(a: seq<int>, b: seq<int>)
    requires Bytes(a) && Bytes(b) && |a| == |b|
    ensures Compare(a, b) == if Number(a) < Number(b) then -1 else if Number(a) > Number(b) then 1 else 0
  {
    if a != [] {
      var n := |a| - 1;
      NumberFollowsBytes(a[..n], b[..n]);
      CompareConcat(a[..n], [a[n]], b[..n], [b[n]]);
      assert a == a[..n] + [a[n]] && b == b[..n] + [b[n]];
      CompareOne(a[n], b[n]);
      hide Compare;
    }
  }

  lemma CompareOne(x: int, y: int)
    ensures Compare([x], [y]) == if x < y then -1 else if x > y then 1 else 0
  {
  }

  // ----- lower-case hexadecimal text, section 4 of RFC 9562 -----

  function Hex(d: int): char
    requires 0 <= d < 16
  {
    "0123456789abcdef"[d]
  }

  function ByteText(x: int): string
    requires 0 <= x < 256
  {
    [Hex(x / 16), Hex(x % 16)]
  }

  function BytesText(u: seq<int>): (s: string)
    requires Bytes(u)
    ensures |s| == 2 * |u|
  {
    if u == [] then "" else BytesText(u[..|u| - 1]) + ByteText(u[|u| - 1])
  }

  function Text(u: Uuid): string {
    BytesText(u[..4]) + "-" + BytesText(u[4..6]) + "-" + BytesText(u[6..8]) + "-" + BytesText(u[8..10]) + "-" +
    BytesText(u[10..])
  }

  lemma CodesConcat(a: string, b: string)
    ensures Codes(a + b) == Codes(a) + Codes(b)
  {
  }

  lemma HexMonotone(x: int, y: int)
    requires 0 <= x < y < 16
    ensures Hex(x) as int < Hex(y) as int
  {
  }

  /** The digits of a byte sort like the byte. */
  lemma ByteTextOrder(x: int, y: int)
    requires 0 <= x < 256 && 0 <= y < 256
    ensures Compare(Codes(ByteText(x)), Codes(ByteText(y))) == if x < y then -1 else if x > y then 1 else 0
  {
    var a, b, c, d := x / 16, x % 16, y / 16, y % 16;
    assert x == 16 * a + b && y == 16 * c + d;
    assert Codes(ByteText(x)) == [Hex(a) as int] + [Hex(b) as int];
    assert Codes(ByteText(y)) == [Hex(c) as int] + [Hex(d) as int];
    CompareConcat([Hex(a) as int], [Hex(b) as int], [Hex(c) as int], [Hex(d) as int]);
    CompareOne(Hex(a) as int, Hex(c) as int);
    CompareOne(Hex(b) as int, Hex(d) as int);
    hide Compare, Hex, Codes, ByteText;
    if a < c { HexMonotone(a, c); }
    if c < a { HexMonotone(c, a); }
    if b < d { HexMonotone(b, d); }
    if d < b { HexMonotone(d, b); }
  }

  lemma OneMoreByte(a: seq<int>, x: int, b: seq<int>, y: int)
    requires Bytes(a) && Bytes(b) && |a| == |b| && 0 <= x < 256 && 0 <= y < 256
    requires Compare(Codes(BytesText(a)), Codes(BytesText(b))) == Compare(a, b)
    ensures Compare(Codes(BytesText(a) + ByteText(x)), Codes(BytesText(b) + ByteText(y))) == Compare(a + [x], b + [y])
  {
    hide ByteText, BytesText, Compare, Codes;
    ConcatOrder(BytesText(a), ByteText(x), BytesText(b), ByteText(y));
    ByteTextOrder(x, y);
    CompareConcat(a, [x], b, [y]);
    CompareOne(x, y);
  }

  lemma {:induction false} BytesTextOrder(a: seq<int>, b: seq<int>)
    requires Bytes(a) && Bytes(b) && |a| == |b|
    ensures Compare(Codes(BytesText(a)), Codes(BytesText(b))) == Compare(a, b)
  {
    hide ByteText, Compare, Codes;
    if a == [] {
      assert a == b;
      CompareEqual(a, b);
      CompareEqual(Codes(BytesText(a)), Codes(BytesText(b)));
    } else {
      var n := |a| - 1;
      BytesTextOrder(a[..n], b[..n]);
      OneMoreByte(a[..n], a[n], b[..n], b[n]);
      assert a == a[..n] + [a[n]] && b == b[..n] + [b[n]];
    }
  }

  lemma ConcatOrder(a: string, b: string, c: string, d: string)
    requires |a| == |c|
    ensures Compare(Codes(a + b), Codes(c + d)) ==
            if Compare(Codes(a), Codes(c)) != 0 then Compare(Codes(a), Codes(c)) else Compare(Codes(b), Codes(d))
  {
    CodesConcat(a, b);
    CodesConcat(c, d);
    assert |Codes(a)| == |Codes(c)|;
    CompareConcat(Codes(a), Codes(b), Codes(c), Codes(d));
    hide Compare, Codes;
  }

  /** One more group: what was compared so far decides, then the group. */
  lemma GroupOrder(x: string, y: string, a: seq<int>, b: seq<int>, g: seq<int>, h: seq<int>)
    requires Bytes(a) && Bytes(b) && Bytes(g) && Bytes(h) && |a| == |b| && |g| == |h| && |x| == |y|
    requires Compare(Codes(x), Codes(y)) == Compare(a, b)
    ensures Compare(Codes(x + "-" + BytesText(g)), Codes(y + "-" + BytesText(h))) == Compare(a + g, b + h)
  {
    hide Compare, Codes, BytesText;
    ConcatOrder(x, "-", y, "-");
    CompareEqual(Codes("-"), Codes("-"));
    ConcatOrder(x + "-", BytesText(g), y + "-", BytesText(h));
    BytesTextOrder(g, h);
    CompareConcat(a, g, b, h);
  }

  /** Ids sort as text exactly as they sort as bytes. */
  lemma TextFollowsBytes(a: Uuid, b: Uuid)
    ensures Compare(Codes(Text(a)), Codes(Text(b))) == Compare(a, b)
  {
    hide Compare, Codes, BytesText;
    BytesTextOrder(a[..4], b[..4]);
    var x1, y1 := BytesText(a[..4]), BytesText(b[..4]);
    GroupOrder(x1, y1, a[..4], b[..4], a[4..6], b[4..6]);
    assert a[..4] + a[4..6] == a[..6] && b[..4] + b[4..6] == b[..6];
    var x2, y2 := x1 + "-" + BytesText(a[4..6]), y1 + "-" + BytesText(b[4..6]);
    GroupOrder(x2, y2, a[..6], b[..6], a[6..8], b[6..8]);
    assert a[..6] + a[6..8] == a[..8] && b[..6] + b[6..8] == b[..8];
    var x3, y3 := x2 + "-" + BytesText(a[6..8]), y2 + "-" + BytesText(b[6..8]);
    GroupOrder(x3, y3, a[..8], b[..8], a[8..10], b[8..10]);
    assert a[..8] + a[8..10] == a[..10] && b[..8] + b[8..10] == b[..10];
    var x4, y4 := x3 + "-" + BytesText(a[8..10]), y3 + "-" + BytesText(b[8..10]);
    GroupOrder(x4, y4, a[..10], b[..10], a[10..], b[10..]);
    assert a[..10] + a[10..] == a && b[..10] + b[10..] == b;
  }

  // ----- the two orders on (time, id) -----

  datatype Mark = Mark(time: int, id: Uuid)

  /** Apply order: by time, then by the bytes of the id. */
  function CompareCursors(a: Mark, b: Mark): int {
    if a.time < b.time then -1 else if a.time > b.time then 1 else Compare(a.id, b.id)
  }

  /** Lineage order: by time, then by the text of the id. */
  predicate ApplyMetaLess(a: Mark, b: Mark) {
    if a.time != b.time then a.time < b.time else Less(Text(a.id), Text(b.id))
  }

  function CursorAt(m: Mark): Cursor {
    Cursor(m.time, Number(m.id))
  }

  /** Cursor order, lineage order and the model's order on (time, number) agree on every pair. */
  lemma OrdersAgree(a: Mark, b: Mark)
    ensures CompareCursors(a, b) == -1 <==> ApplyMetaLess(a, b)
    ensures CompareCursors(a, b) == -1 <==> CursorAt(a).Before(CursorAt(b))
    ensures CompareCursors(a, b) == 0 <==> a == b
    ensures CompareCursors(b, a) == -CompareCursors(a, b)
  {
    TextFollowsBytes(a.id, b.id);
    NumberFollowsBytes(a.id, b.id);
    CompareEqual(a.id, b.id);
    CompareMirrors(a.id, b.id);
    hide Compare, Codes, Text, Number;
  }

  lemma CursorsTransitive(a: Mark, b: Mark, c: Mark)
    requires CompareCursors(a, b) == -1 && CompareCursors(b, c) == -1
    ensures CompareCursors(a, c) == -1
  {
    if a.time == b.time == c.time {
      CompareTransitive(a.id, b.id, c.id);
    }
    hide Compare;
  }

  predicate IsNil(u: Uuid) {
    forall i :: 0 <= i < 16 ==> u[i] == 0
  }

  /** The cursor that stands for "nothing applied yet" is the one with the zero time and the nil id, and no other
      mark reads as it: the number of an id is zero only for the nil id. */
  lemma ZeroCursorIsNil(m: Mark)
    ensures CursorAt(m).IsZero() <==> m.time == 0 && IsNil(m.id)
  {
    NumberZero(m.id);
    hide Number;
  }

  lemma {:induction false} NumberZero(u: seq<int>)
    requires Bytes(u)
    ensures Number(u) == 0 <==> forall i :: 0 <= i < |u| ==> u[i] == 0
  {
    if u != [] {
      NumberZero(u[..|u| - 1]);
    }
  }
}
