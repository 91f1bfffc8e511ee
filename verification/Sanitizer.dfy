/** Ticker-like tokens in generated text: the matches of the pattern \b[A-Z]{1,5}\b, found by scanning, and
    what rewriting the unknown ones does to the text. */
module Sanitizer {
  import opened Options

  /** The pattern's notion of a word character is ASCII. */
  predicate Word(c: char) {
    'A' <= c <= 'Z' || 'a' <= c <= 'z' || '0' <= c <= '9' || c == '_'
  }

  predicate Capital(c: char) {
    'A' <= c <= 'Z'
  }

  predicate Capitals(s: string) {
    forall i :: 0 <= i < |s| ==> Capital(s[i])
  }

  predicate Words(s: string) {
    forall i :: 0 <= i < |s| ==> Word(s[i])
  }

  // ----- matches of the pattern -----

  predicate Boundary(s: string, i: nat)
    requires i <= |s|
  {
    (i > 0 && Word(s[i - 1])) != (i < |s| && Word(s[i]))
  }

  predicate Match(s: string, i: nat, n: nat) {
    1 <= n <= 5 && i + n <= |s| && Capitals(s[i..i + n]) && Boundary(s, i) && Boundary(s, i + n)
  }

  const ENGLISH: set<string> := {
    "THE", "AND", "FOR", "ARE", "BUT", "NOT", "YOU", "ALL", "CAN", "HER", "WAS", "ONE", "OUR", "OUT", "DAY",
    "GET", "HAS", "HIM", "HIS", "HOW", "ITS", "LET", "MAY", "NEW", "NOW", "OLD", "SEE", "TWO", "WHO", "BOY",
    "DID", "OWN", "SAY", "SHE", "TOO", "ANY", "HAD", "WAY", "USE", "IT", "OR", "IN", "ON", "AT", "BE", "DO",
    "IF", "IS", "NO", "OF", "TO", "UP", "AS", "AN", "AM", "WE", "ME", "US", "GO", "AI", "OK", "VS", "TV",
    "PC", "UK", "EU", "IM", "PM"
  }

  const FINANCE: set<string> := {
    "CASH", "USD", "VAR", "MTM", "PNL", "ROI", "ETF", "IPO", "EPS", "YTD", "QTD", "MTD", "LLM", "API"
  }

  predicate IsKnown(tok: string, allow: set<string>) {
    tok in ENGLISH || tok in FINANCE || tok in allow
  }

  /** Every ticker-like token of the text is known. */
  ghost predicate AllKnown(s: string, allow: set<string>) {
    forall i: nat, n: nat :: Match(s, i, n) ==> IsKnown(s[i..i + n], allow)
  }

  // ----- the text as words and the characters between them -----

  function WordLen(s: string): (n: nat)
    ensures n <= |s| && Words(s[..n]) && (n < |s| ==> !Word(s[n]))
  {
    if s == "" || !Word(s[0]) then 0 else 1 + WordLen(s[1..])
  }

  /** The first maximal word, or a single character that is in no word. */
  function HeadLen(s: string): (n: nat)
    requires s != ""
    ensures 1 <= n <= |s|
  {
    if Word(s[0]) then WordLen(s) else 1
  }

  function Chunks(s: string): seq<string> {
    if s == "" then [] else [s[..HeadLen(s)]] + Chunks(s[HeadLen(s)..])
  }

  function Join(cs: seq<string>): string {
    if cs == [] then "" else cs[0] + Join(cs[1..])
  }

  predicate IsChunk(c: string) {
    c != "" && (Words(c) || |c| == 1)
  }

  /** Words are maximal: no two of them are neighbours. */
  predicate Separate(cs: seq<string>) {
    (forall k :: 0 <= k < |cs| ==> IsChunk(cs[k])) &&
    forall k :: 0 <= k < |cs| - 1 ==> !(Words(cs[k]) && Words(cs[k + 1]))
  }

  /** The head is a chunk, and a word at the head is maximal. */
  lemma HeadFacts(s: string)
    requires s != ""
    ensures var h := HeadLen(s);
            IsChunk(s[..h]) && (Words(s[..h]) && h < |s| ==> !Word(s[h])) && (Word(s[0]) <==> Words(s[..h]))
  {
    assert Words(s[..HeadLen(s)]) ==> Word(s[..HeadLen(s)][0]);
    hide WordLen;
  }

  lemma ChunksUnfold(s: string)
    requires s != ""
    ensures Chunks(s) == [s[..HeadLen(s)]] + Chunks(s[HeadLen(s)..])
  {
    hide HeadLen;
  }

  lemma JoinUnfolds(c: string, cs: seq<string>)
    ensures Join([c] + cs) == c + Join(cs)
  {
    assert ([c] + cs)[1..] == cs;
  }

  lemma SeparateCons(c: string, rest: seq<string>)
    requires IsChunk(c) && Separate(rest) && (rest != [] ==> !(Words(c) && Words(rest[0])))
    ensures Separate([c] + rest)
  {
    hide IsChunk, Words;
    var cs := [c] + rest;
    forall k | 0 <= k < |cs| - 1
      ensures !(Words(cs[k]) && Words(cs[k + 1]))
    {
      assert cs[k + 1] == rest[k] && (k > 0 ==> cs[k] == rest[k - 1]);
    }
  }

  /** The head of the rest is no word when the head is one. */
  lemma HeadsAlternate(s: string)
    requires s != "" && HeadLen(s) < |s|
    ensures var t := s[HeadLen(s)..];
            !(Words(s[..HeadLen(s)]) && Words(t[..HeadLen(t)]))
  {
    HeadFacts(s);
    HeadFacts(s[HeadLen(s)..]);
    hide HeadLen, Words, IsChunk;
  }

  /** The chunks are maximal and put together they are the text. */
  lemma {:induction false} ChunksFacts(s: string)
    ensures Separate(Chunks(s)) && Join(Chunks(s)) == s
    ensures s != "" ==> Chunks(s) != [] && Chunks(s)[0] == s[..HeadLen(s)]
  {
    if s == "" {
      hide Words;
    } else {
      hide Chunks, HeadLen, Words, IsChunk, Join, Separate;
      var h := HeadLen(s);
      var rest := Chunks(s[h..]);
      HeadFacts(s);
      ChunksFacts(s[h..]);
      ChunksUnfold(s);
      JoinUnfolds(s[..h], rest);
      assert s[..h] + s[h..] == s;
      if h < |s| {
        HeadsAlternate(s);
      } else {
        NoChunks(s[h..]);
      }
      SeparateCons(s[..h], rest);
    }
  }

  lemma NoChunks(s: string)
    requires s == ""
    ensures Chunks(s) == []
  {
  }

  lemma {:induction false} WordLenOf(c: string, t: string)
    requires Words(c) && (t == "" || !Word(t[0]))
    ensures WordLen(c + t) == |c|
  {
    if c == "" {
      assert c + t == t;
    } else {
      assert (c + t)[1..] == c[1..] + t;
      WordLenOf(c[1..], t);
    }
  }

  /** A chunk in front of a text that does not go on with the same word is its head. */
  lemma HeadOfJoin(c: string, t: string)
    requires IsChunk(c) && (Words(c) && t != "" ==> !Word(t[0]))
    ensures HeadLen(c + t) == |c| && (c + t)[..|c|] == c && (c + t)[|c|..] == t
  {
    if Words(c) {
      WordLenOf(c, t);
    }
    hide WordLen;
    assert (c + t)[0] == c[0];
  }

  lemma JoinStart(cs: seq<string>)
    requires Separate(cs) && cs != []
    ensures Join(cs) != "" && (!Words(cs[0]) ==> !Word(Join(cs)[0]))
  {
    hide Join;
    JoinUnfolds(cs[0], cs[1..]);
    assert cs == [cs[0]] + cs[1..];
  }

  /** The chunks of a text are the only way to cut it up like this. */
  lemma {:induction false} ChunksOfJoin(cs: seq<string>)
    requires Separate(cs)
    ensures Chunks(Join(cs)) == cs
  {
    if cs != [] {
      hide Words, HeadLen, IsChunk;
      var c, rest := cs[0], cs[1..];
      ChunksOfJoin(rest);
      if rest != [] {
        assert cs[1] == rest[0];
        JoinStart(rest);
      }
      HeadOfJoin(c, Join(rest));
      hide Join;
      JoinUnfolds(c, rest);
      assert cs == [c] + rest;
      ChunksUnfold(c + Join(rest));
    }
  }

  // ----- rewriting -----

  predicate Ticker(c: string) {
    1 <= |c| <= 5 && Capitals(c)
  }

  function Fix(c: string, allow: set<string>): string {
    if Ticker(c) && !IsKnown(c, allow) then "asset" else c
  }

  function FixAll(cs: seq<string>, allow: set<string>): seq<string> {
    seq(|cs|, k requires 0 <= k < |cs| => Fix(cs[k], allow))
  }

  /** The text with every unknown ticker-like word replaced. */
  function Clean(s: string, allow: set<string>): string {
    Join(FixAll(Chunks(s), allow))
  }

  lemma FixIsAlike(c: string, allow: set<string>)
    requires IsChunk(c)
    ensures IsChunk(Fix(c, allow)) && (Words(Fix(c, allow)) <==> Words(c))
  {
    hide IsKnown;
    if Ticker(c) {
      assert forall i :: 0 <= i < |c| ==> Word(c[i]);
    }
  }

  /** The cleaned text has the same words and the same characters between them, one by one, except that each
      unknown ticker-like word has become "asset". */
  lemma ChunksOfClean(s: string, allow: set<string>)
    ensures Chunks(Clean(s, allow)) == FixAll(Chunks(s), allow)
  {
    ChunksFacts(s);
    var cs := Chunks(s);
    hide Fix, IsChunk, Words;
    forall k | 0 <= k < |cs|
      ensures IsChunk(Fix(cs[k], allow)) && (Words(Fix(cs[k], allow)) <==> Words(cs[k]))
    {
      FixIsAlike(cs[k], allow);
    }
    ChunksOfJoin(FixAll(cs, allow));
  }

  /** The characters of a word by their ASCII codes: digits, letters and the underscore. */
  lemma WordRead(c: char)
    ensures Capital(c) <==> 65 <= c as int <= 90
    ensures Word(c) <==> 65 <= c as int <= 90 || 97 <= c as int <= 122 || 48 <= c as int <= 57 || c as int == 95
  {
  }

  /** What becomes of a word, read off: one of at most five letters, all of them capitals, that neither word list has and
      that is not allowed becomes "asset"; everything else stays as it is. */
  lemma CleanRead(s: string, allow: set<string>, k: nat)
    requires k < |Chunks(s)|
    ensures k < |Chunks(Clean(s, allow))| == |Chunks(s)|
    ensures var c := Chunks(s)[k];
            Chunks(Clean(s, allow))[k] ==
            if 0 < |c| < 6 && (forall i :: 0 <= i < |c| ==> 65 <= c[i] as int <= 90) &&
               c !in ENGLISH && c !in FINANCE && c !in allow
            then "asset" else c
  {
    ChunksOfClean(s, allow);
    var c := Chunks(s)[k];
    forall i | 0 <= i < |c|
      ensures Capital(c[i]) <==> 65 <= c[i] as int <= 90
    {
      WordRead(c[i]);
    }
    hide Capital, Chunks, Clean;
  }

  lemma FixTwice(c: string, allow: set<string>)
    ensures Fix(Fix(c, allow), allow) == Fix(c, allow)
    ensures Ticker(Fix(c, allow)) ==> IsKnown(Fix(c, allow), allow)
  {
    hide IsKnown;
    assert !Capital("asset"[0]);
  }

  /** A second pass is the identity. */
  lemma CleanTwice(s: string, allow: set<string>)
    ensures Clean(Clean(s, allow), allow) == Clean(s, allow)
  {
    ChunksOfClean(s, allow);
    var cs := Chunks(s);
    hide Fix;
    forall k | 0 <= k < |cs|
      ensures Fix(Fix(cs[k], allow), allow) == Fix(cs[k], allow)
    {
      FixTwice(cs[k], allow);
    }
    assert FixAll(FixAll(cs, allow), allow) == FixAll(cs, allow);
  }

  // ----- matches are words -----

  lemma CapitalsAreWords(s: string, i: nat, n: nat)
    requires i + n <= |s| && Capitals(s[i..i + n])
    ensures Words(s[i..i + n]) && forall j :: i <= j < i + n ==> Capital(s[j]) && Word(s[j])
  {
    forall j | i <= j < i + n
      ensures Capital(s[j])
    {
      assert s[i..i + n][j - i] == s[j];
    }
  }

  /** A match at the head is the head. */
  lemma MatchAtHead(s: string, n: nat)
    requires Match(s, 0, n)
    ensures HeadLen(s) == n && Ticker(s[..n])
  {
    CapitalsAreWords(s, 0, n);
    assert s[0..n] == s[..n];
    assert s == s[..n] + s[n..];
    WordLenOf(s[..n], s[n..]);
    hide WordLen;
  }

  lemma InsideHead(s: string, i: nat)
    requires 0 < i < |s| && Word(s[i])
    ensures i < HeadLen(s) ==> Word(s[i - 1])
  {
    var h := HeadLen(s);
    if Word(s[0]) && i < h {
      assert s[..h][i - 1] == s[i - 1];
    }
    hide WordLen;
  }

  lemma MatchBehindHead(s: string, i: nat, n: nat)
    requires Match(s, i, n) && i > 0
    ensures i >= HeadLen(s) && Match(s[HeadLen(s)..], i - HeadLen(s), n)
    ensures s[HeadLen(s)..][i - HeadLen(s)..i - HeadLen(s) + n] == s[i..i + n]
  {
    hide HeadLen;
    CapitalsAreWords(s, i, n);
    InsideHead(s, i);
    MatchInRest(s, HeadLen(s), i, n);
  }

  /** A match stays one when what precedes its word is cut off. */
  lemma MatchInRest(s: string, h: nat, i: nat, n: nat)
    requires h <= i && Match(s, i, n) && Word(s[i])
    ensures Match(s[h..], i - h, n) && s[h..][i - h..i - h + n] == s[i..i + n]
  {
    hide Capitals;
    var t, k := s[h..], i - h;
    assert t[k..k + n] == s[i..i + n];
    assert t[k] == s[i] && (k > 0 ==> t[k - 1] == s[i - 1]);
    assert Boundary(t, k);
    assert t[k + n - 1] == s[i + n - 1] && (k + n < |t| ==> t[k + n] == s[i + n]);
    assert Boundary(t, k + n);
  }

  /** A match of the pattern is a whole word of the text. */
  lemma {:induction false} MatchIsChunk(s: string, i: nat, n: nat) returns (k: nat)
    requires Match(s, i, n)
    ensures k < |Chunks(s)| && Chunks(s)[k] == s[i..i + n] && Ticker(Chunks(s)[k])
    decreases |s|
  {
    if i == 0 {
      MatchAtHead(s, n);
      hide HeadLen, Match, Ticker;
      assert s[0..n] == s[..n];
      k := 0;
    } else {
      MatchBehindHead(s, i, n);
      var h := HeadLen(s);
      hide HeadLen, Match, Ticker;
      k := MatchIsChunk(s[h..], i - h, n);
      assert Chunks(s)[k + 1] == Chunks(s[h..])[k];
      k := k + 1;
    }
  }

  lemma HeadIsMatch(s: string)
    requires s != "" && Ticker(s[..HeadLen(s)])
    ensures Match(s, 0, HeadLen(s))
  {
    var h := HeadLen(s);
    assert s[0..h] == s[..h];
    CapitalsAreWords(s, 0, h);
    HeadFacts(s);
    hide HeadLen, Capitals, Words;
  }

  /** A match behind the head is a match of the text. */
  lemma MatchMovesBack(s: string, j: nat, n: nat)
    requires s != "" && Match(s[HeadLen(s)..], j, n)
    ensures Match(s, HeadLen(s) + j, n) && s[HeadLen(s) + j..HeadLen(s) + j + n] == s[HeadLen(s)..][j..j + n]
  {
    var h := HeadLen(s);
    HeadEnds(s);
    CapitalsAreWords(s[h..], j, n);
    hide HeadLen, Capitals;
    assert s[h + j..h + j + n] == s[h..][j..j + n];
    assert s[h..][j] == s[h + j];
  }

  lemma HeadEnds(s: string)
    requires s != ""
    ensures HeadLen(s) < |s| && Word(s[HeadLen(s)]) ==> !Word(s[HeadLen(s) - 1])
  {
  }

  /** And each ticker-like word is a match. */
  lemma {:induction false} ChunkIsMatch(s: string, k: nat) returns (i: nat)
    requires k < |Chunks(s)| && Ticker(Chunks(s)[k])
    ensures Match(s, i, |Chunks(s)[k]|) && i + |Chunks(s)[k]| <= |s| && s[i..i + |Chunks(s)[k]|] == Chunks(s)[k]
    decreases |s|
  {
    hide HeadLen, Match, Ticker;
    assert s != "";
    hide Chunks;
    ChunksUnfold(s);
    var h := HeadLen(s);
    var c := Chunks(s)[k];
    if k == 0 {
      i := 0;
      HeadIsMatch(s);
      assert s[0..h] == s[..h];
    } else {
      assert c == Chunks(s[h..])[k - 1];
      var j := ChunkIsMatch(s[h..], k - 1);
      MatchMovesBack(s, j, |c|);
      i := h + j;
    }
  }

  /** No unknown ticker-like token is left. */
  lemma NoUnknownLeft(s: string, allow: set<string>)
    ensures AllKnown(Clean(s, allow), allow)
  {
    var r := Clean(s, allow);
    forall i: nat, n: nat | Match(r, i, n)
      ensures IsKnown(r[i..i + n], allow)
    {
      var k := MatchIsChunk(r, i, n);
      ChunksOfClean(s, allow);
      FixTwice(Chunks(s)[k], allow);
    }
  }

  lemma FixKeeps(c: string, allow: set<string>)
    requires Ticker(c) ==> IsKnown(c, allow)
    ensures Fix(c, allow) == c
  {
    hide IsKnown;
  }

  /** The text is left as it is just when it had no unknown token. */
  lemma CleanIsIdentityIff(s: string, allow: set<string>)
    ensures Clean(s, allow) == s <==> AllKnown(s, allow)
  {
    hide IsKnown, Fix, Match, Ticker, Chunks, Join, Separate;
    if Clean(s, allow) == s {
      NoUnknownLeft(s, allow);
    }
    if AllKnown(s, allow) {
      var cs := Chunks(s);
      forall k | 0 <= k < |cs|
        ensures Fix(cs[k], allow) == cs[k]
      {
        if Ticker(cs[k]) {
          var i := ChunkIsMatch(s, k);
        }
        FixKeeps(cs[k], allow);
      }
      ChunksFacts(s);
      assert FixAll(cs, allow) == cs;
    }
  }

  // ----- the scan -----

  /** The greedy match at i, or zero. */
  function MatchAt(s: string, i: nat): (n: nat)
    ensures n > 0 ==> Match(s, i, n)
    ensures n == 0 ==> forall m: nat :: !Match(s, i, m)
  {
    if Match(s, i, 5) then 5
    else if Match(s, i, 4) then 4
    else if Match(s, i, 3) then 3
    else if Match(s, i, 2) then 2
    else if Match(s, i, 1) then 1
    else 0
  }

  /** What the scan writes from position i on. */
  function Scan(s: string, i: nat, allow: set<string>): string
    requires i <= |s|
    decreases |s| - i
  {
    if i == |s| then ""
    else
      var n := MatchAt(s, i);
      if n > 0 then Fix(s[i..i + n], allow) + Scan(s, i + n, allow)
      else [s[i]] + Scan(s, i + 1, allow)
  }

  lemma NotABoundary(s: string, i: nat)
    requires 0 < i < |s| && Word(s[i - 1]) && Word(s[i])
    ensures MatchAt(s, i) == 0
  {
    assert !Boundary(s, i);
    assert forall n: nat :: !Match(s, i, n);
  }

  /** Inside a word nothing matches. */
  lemma {:induction false} ScanInsideWord(s: string, i: nat, e: nat, allow: set<string>)
    requires 0 < i <= e <= |s| && forall k :: i - 1 <= k < e ==> Word(s[k])
    ensures Scan(s, i, allow) == s[i..e] + Scan(s, e, allow)
    decreases e - i
  {
    hide MatchAt, Fix, Scan;
    if i < e {
      NotABoundary(s, i);
      ScanInsideWord(s, i + 1, e, allow);
      ScanSkip(s, i, allow);
      assert s[i..e] == [s[i]] + s[i + 1..e];
      Written([s[i]], s[i + 1..e], Scan(s, e, allow));
    } else {
      assert s[i..e] == "";
    }
  }

  lemma ScanMatch(s: string, i: nat, allow: set<string>)
    requires i < |s| && MatchAt(s, i) > 0
    ensures var n := MatchAt(s, i);
            i + n <= |s| && Scan(s, i, allow) == Fix(s[i..i + n], allow) + Scan(s, i + n, allow)
  {
    hide Fix;
  }

  lemma ScanSkip(s: string, i: nat, allow: set<string>)
    requires i < |s| && MatchAt(s, i) == 0
    ensures Scan(s, i, allow) == [s[i]] + Scan(s, i + 1, allow)
  {
    hide MatchAt, Fix;
  }

  /** The scan meets a whole word. */
  lemma ScanWord(s: string, i: nat, e: nat, allow: set<string>)
    requires i < e <= |s| && Words(s[i..e]) && (e < |s| ==> !Word(s[e])) && (i > 0 ==> !Word(s[i - 1]))
    ensures Scan(s, i, allow) == Fix(s[i..e], allow) + Scan(s, e, allow)
  {
    hide Fix, MatchAt, Ticker, Scan;
    OnlyMatch(s, i, e);
    if Ticker(s[i..e]) {
      ScanMatch(s, i, allow);
    } else {
      ScanSkip(s, i, allow);
      NotFixed(s[i..e], allow);
      AllWords(s, i, e);
      hide Words;
      ScanInsideWord(s, i + 1, e, allow);
      assert s[i..e] == [s[i]] + s[i + 1..e];
      Written([s[i]], s[i + 1..e], Scan(s, e, allow));
    }
  }

  lemma AllWords(s: string, i: nat, e: nat)
    requires i <= e <= |s| && Words(s[i..e])
    ensures forall k :: i <= k < e ==> Word(s[k])
  {
    forall k | i <= k < e
      ensures Word(s[k])
    {
      assert s[i..e][k - i] == s[k];
    }
  }

  lemma NotFixed(c: string, allow: set<string>)
    requires !Ticker(c)
    ensures Fix(c, allow) == c
  {
    hide IsKnown;
  }

  lemma OnlyMatch(s: string, i: nat, e: nat)
    requires i < e <= |s| && Words(s[i..e]) && (e < |s| ==> !Word(s[e])) && (i > 0 ==> !Word(s[i - 1]))
    ensures MatchAt(s, i) == if Ticker(s[i..e]) then e - i else 0
  {
    var c := s[i..e];
    forall k | i <= k < e
      ensures Word(s[k])
    {
      assert c[k - i] == s[k];
    }
    forall n: nat | Match(s, i, n)
      ensures n == e - i && Ticker(c)
    {
      CapitalsAreWords(s, i, n);
    }
    if Ticker(c) {
      assert Match(s, i, e - i);
    }
    hide Match;
  }

  lemma CleanUnfolds(s: string, allow: set<string>)
    requires s != ""
    ensures Clean(s, allow) == Fix(s[..HeadLen(s)], allow) + Clean(s[HeadLen(s)..], allow)
  {
    var h := HeadLen(s);
    hide Fix;
    var cs, rest := FixAll(Chunks(s), allow), FixAll(Chunks(s[h..]), allow);
    assert cs == [Fix(s[..h], allow)] + rest;
    assert cs[1..] == rest;
  }

  lemma {:induction false} ScanFrom(s: string, i: nat, allow: set<string>)
    requires i <= |s| && (0 < i < |s| && Word(s[i - 1]) ==> !Word(s[i]))
    ensures Scan(s, i, allow) == Clean(s[i..], allow)
    decreases |s| - i
  {
    if i < |s| {
      var t := s[i..];
      var e := i + HeadLen(t);
      CleanUnfolds(t, allow);
      assert t[HeadLen(t)..] == s[e..] && t[..HeadLen(t)] == s[i..e];
      hide Clean, Fix;
      if Word(s[i]) {
        assert Words(s[i..e]) && (e < |s| ==> !Word(s[e]));
        ScanWord(s, i, e, allow);
      } else {
        NoMatchAt(s, i);
        assert s[i..e] == [s[i]];
        SingleIsNotFixed(s[i], allow);
      }
      hide WordLen, Scan;
      ScanFrom(s, e, allow);
    }
  }

  lemma NoMatchAt(s: string, i: nat)
    requires i < |s| && !Word(s[i])
    ensures MatchAt(s, i) == 0
  {
    forall n: nat
      ensures !Match(s, i, n)
    {
      if Match(s, i, n) {
        CapitalsAreWords(s, i, n);
      }
    }
    hide Match;
  }

  lemma SingleIsNotFixed(c: char, allow: set<string>)
    requires !Word(c)
    ensures Fix([c], allow) == [c]
  {
    hide IsKnown;
    assert [c][0] == c;
  }

  /** Scanning for matches and rewriting the unknown ones is rewriting the unknown words. */
  method SanitizeUnknownTickerTokens(text: string, allow: set<string>) returns (r: string)
    ensures r == Clean(text, allow)
  {
    hide Clean, IsKnown, MatchAt, Match, Fix;
    r := "";
    var i := 0;
    while i < |text|
      invariant 0 <= i <= |text|
      invariant r + Scan(text, i, allow) == Scan(text, 0, allow)
    {
      var n := MatchAt(text, i);
      if n > 0 {
        EndOfMatch(text, i, n);
        RewriteFixes(text, i, n, allow);
        Written(r, Fix(text[i..i + n], allow), Scan(text, i + n, allow));
        r := r + Rewrite(text[i..i + n], allow);
        i := i + n;
      } else {
        Written(r, [text[i]], Scan(text, i + 1, allow));
        r := r + [text[i]];
        i := i + 1;
      }
    }
    assert r + "" == r;
    ScanFrom(text, 0, allow);
    assert text[0..] == text;
  }

  lemma Written(r: string, piece: string, rest: string)
    ensures r + (piece + rest) == (r + piece) + rest
  {
  }

  function Rewrite(tok: string, allow: set<string>): string {
    if IsKnown(tok, allow) then tok else "asset"
  }

  lemma EndOfMatch(s: string, i: nat, n: nat)
    requires Match(s, i, n)
    ensures i + n <= |s| && n > 0
  {
  }

  lemma RewriteFixes(s: string, i: nat, n: nat, allow: set<string>)
    requires Match(s, i, n)
    ensures Rewrite(s[i..i + n], allow) == Fix(s[i..i + n], allow)
  {
    hide IsKnown;
  }

  /** The check of the validator: the first unknown token, or none. */
  method FirstUnknownToken(text: string, allow: set<string>) returns (tok: Option<string>)
    ensures tok.None? <==> AllKnown(text, allow)
    ensures tok.Some? ==> exists i: nat, n: nat :: Match(text, i, n) && text[i..i + n] == tok.value && !IsKnown(tok.value, allow)
  {
    hide IsKnown;
    var i := 0;
    while i < |text|
      invariant 0 <= i
      invariant forall j: nat, m: nat :: j < i && Match(text, j, m) ==> IsKnown(text[j..j + m], allow)
    {
      var n := MatchAt(text, i);
      if n > 0 {
        if !IsKnown(text[i..i + n], allow) {
          return Some(text[i..i + n]);
        }
        NoMatchInside(text, i, n);
        hide MatchAt, Match;
        i := i + n;
      } else {
        i := i + 1;
      }
    }
    return None;
  }

  lemma NoMatchInside(s: string, i: nat, n: nat)
    requires Match(s, i, n)
    ensures forall j: nat, m: nat :: i <= j < i + n && Match(s, j, m) ==> j == i && m == n
  {
    forall j: nat, m: nat | i <= j < i + n && Match(s, j, m)
      ensures j == i && m == n
    {
      var a, b := s[i..i + n], s[j..j + m];
      assert forall k :: i <= k < i + n ==> Capital(a[k - i]) && s[k] == a[k - i];
      assert forall k :: j <= k < j + m ==> Capital(b[k - j]) && s[k] == b[k - j];
    }
  }
}
