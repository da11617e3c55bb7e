/** What the printers quote and escape, and which texts the readers refuse. */
module Quoting {
  import opened Util
  import opened NestedLists
  import Wire
  import A = ArrayText
  import C = Composite
  import F = CopyFormat

  /** The six blanks of ASCII. */
  predicate Blank(c: char) { c == ' ' || 9 <= c as int <= 13 }

  function Lower(c: char): char { if 'A' <= c <= 'Z' then (c as int + 32) as char else c }

  /** The word null in any mixture of cases. */
  predicate SaysNull(b: string) {
    |b| == 4 && Lower(b[0]) == 'n' && Lower(b[1]) == 'u' && Lower(b[2]) == 'l' && Lower(b[3]) == 'l'
  }

  // ---------- arrays ----------

  /**
   An element is printed as it is exactly if no reader can take it for anything else: it is not empty, holds
   no quote, backslash, brace, delimiter or blank, and does not say null. Any other is printed in quotes.
   */
  lemma ElementQuotedIff(b: string, c: A.Delimiter)
    ensures A.LeafText(b, c) == b <==>
              && b != [] && !SaysNull(b)
              && forall i :: 0 <= i < |b| ==> b[i] != '"' && b[i] != '\\' && b[i] != '{' && b[i] != '}' && b[i] != c && !Blank(b[i])
    ensures A.LeafText(b, c) != b ==> A.LeafText(b, c)[0] == '"'
  {
    EscapedLength(b);
    assert A.NeedsQuotes(b, c) ==> |A.LeafText(b, c)| > |b|;
    NullWordIff(b);
    forall i | 0 <= i < |b|
      ensures A.Special(b[i], c) <==> b[i] == '"' || b[i] == '\\' || b[i] == '{' || b[i] == '}' || b[i] == c || Blank(b[i])
    {
      SpecialIff(b[i], c);
    }
  }

  lemma SpecialIff(x: char, c: A.Delimiter)
    ensures A.Special(x, c) <==> x == '"' || x == '\\' || x == '{' || x == '}' || x == c || Blank(x)
  {
  }

  lemma NullWordIff(b: string)
    ensures A.IsNullWord(b) <==> SaysNull(b)
  {
  }

  /** Quotes and backslashes are escaped, and nothing else. */
  lemma {:induction false} EscapedLength(b: string)
    ensures |A.Escaped(b)| == |b| + multiset(b)['"'] + multiset(b)['\\']
  {
    if b != [] {
      EscapedLength(b[1..]);
      assert b == [b[0]] + b[1..];
    }
  }

  /** A text with a backslash before each quote and backslash, and before any other chars but newlines. */
  function EscapedWith(b: string, extra: set<nat>, i: nat): string
    requires i <= |b|
    decreases |b| - i
  {
    if i == |b| then []
    else (if b[i] == '"' || b[i] == '\\' || (i in extra && b[i] != '\n') then ['\\', b[i]] else [b[i]])
         + EscapedWith(b, extra, i + 1)
  }

  lemma {:induction false} UnescapedWith(b: string, extra: set<nat>, i: nat)
    requires i <= |b|
    ensures A.Unescaped(EscapedWith(b, extra, i)) == b[i..]
    decreases |b| - i
  {
    if i < |b| {
      UnescapedWith(b, extra, i + 1);
      var s, rest := EscapedWith(b, extra, i), EscapedWith(b, extra, i + 1);
      if b[i] == '"' || b[i] == '\\' || (i in extra && b[i] != '\n') {
        assert s[2..] == rest;
      } else {
        assert s[1..] == rest;
      }
      assert b[i..] == [b[i]] + b[i + 1..];
    }
  }

  lemma {:induction false} QuotedLenWith(b: string, extra: set<nat>, i: nat, rest: string)
    requires i <= |b|
    ensures A.QuotedLen(EscapedWith(b, extra, i) + "\"" + rest) == |EscapedWith(b, extra, i)| + 1
    decreases |b| - i
  {
    if i < |b| {
      QuotedLenWith(b, extra, i + 1, rest);
      var s, more := EscapedWith(b, extra, i), EscapedWith(b, extra, i + 1);
      var n := |s| - |more|;
      assert (s + "\"" + rest)[n..] == more + "\"" + rest;
    }
  }

  /** However much of it is escaped, a quoted element is one token, and reads as the element. */
  lemma AnyEscapingReads(b: string, extra: set<nat>, rest: string, c: A.Delimiter)
    ensures var t := "\"" + EscapedWith(b, extra, 0) + "\"";
            A.TokenLen(t + rest, c) == |t| && A.Value(t) == Leaf(b)
  {
    var s := EscapedWith(b, extra, 0);
    var t := "\"" + s + "\"";
    QuotedLenWith(b, extra, 0, rest);
    UnescapedWith(b, extra, 0);
    assert (t + rest)[1..] == s + "\"" + rest;
    assert t[1..|t| - 1] == s && b[0..] == b;
  }

  /** A backslash before a newline escapes nothing: what has one inside its quotes is no token. */
  lemma {:induction false} NewlineUnescapable(b: string, extra: set<nat>, i: nat, rest: string)
    requires i <= |b|
    ensures A.QuotedLen(EscapedWith(b, extra, i) + "\\\n" + rest) == 0
    decreases |b| - i
  {
    if i < |b| {
      NewlineUnescapable(b, extra, i + 1, rest);
      var s, more := EscapedWith(b, extra, i), EscapedWith(b, extra, i + 1);
      var n := |s| - |more|;
      assert (s + "\\\n" + rest)[n..] == more + "\\\n" + rest;
    }
  }

  /** A word without quotes goes up to the next quote, backslash, brace or delimiter; only NULL in capitals is none. */
  lemma {:induction false} WordReads(b: string, rest: string, c: A.Delimiter)
    requires b != [] && forall i :: 0 <= i < |b| ==> b[i] != '"' && b[i] != '\\' && b[i] != '{' && b[i] != '}' && b[i] != c
    requires rest == [] || rest[0] == '"' || rest[0] == '\\' || rest[0] == '{' || rest[0] == '}' || rest[0] == c
    ensures A.TokenLen(b + rest, c) == |b| && A.Value(b) == if b == "NULL" then Null else Leaf(b)
  {
    WordLenIs(b, rest, c);
  }

  lemma {:induction false} WordLenIs(b: string, rest: string, c: A.Delimiter)
    requires forall i :: 0 <= i < |b| ==> b[i] != '"' && b[i] != '\\' && b[i] != '{' && b[i] != '}' && b[i] != c
    requires rest == [] || rest[0] == '"' || rest[0] == '\\' || rest[0] == '{' || rest[0] == '}' || rest[0] == c
    ensures A.WordLen(b + rest, c) == |b|
  {
    if b == [] {
      assert b + rest == rest;
    } else {
      assert (b + rest)[1..] == b[1..] + rest;
      WordLenIs(b[1..], rest, c);
    }
  }

  /** By how many a token changes the number of open lists. */
  function Turn(t: string): int { if t == "{" then 1 else if t == "}" then -1 else 0 }

  /** How many lists are open after these tokens. */
  function Depth(ts: seq<string>): int {
    if ts == [] then 0 else Depth(ts[..|ts| - 1]) + Turn(ts[|ts| - 1])
  }

  lemma {:induction false} DepthFirst(ts: seq<string>)
    requires ts != []
    ensures Depth(ts) == Turn(ts[0]) + Depth(ts[1..])
    decreases |ts|
  {
    if |ts| > 1 {
      DepthFirst(ts[..|ts| - 1]);
      assert ts[..|ts| - 1][1..] == ts[1..][..|ts| - 2];
    } else {
      assert ts[..0] == [] && ts[1..] == [];
    }
  }

  /** A token that is in no list, when d lists are open at the start. */
  ghost predicate Stray(ts: seq<string>, k: nat, d: int) {
    k < |ts| && ts[k] != "{" && d + Depth(ts[..k]) == 0
  }

  ghost predicate FirstStray(ts: seq<string>, k: nat, d: int) {
    Stray(ts, k, d) && forall j: nat :: j < k ==> !Stray(ts, j, d)
  }

  /** The outcome of reading: the error of the first stray token, if there is one. */
  ghost predicate Outcome(ts: seq<string>, d: int, x: Option<A.Error>) {
    && (x.None? ==> forall k: nat :: !Stray(ts, k, d))
    && (x.Some? ==> exists k: nat :: FirstStray(ts, k, d)
                                     && x.value == if ts[k] == "}" then A.UnexpectedClose else A.UnexpectedItem)
  }

  lemma StrayLater(ts: seq<string>, k: nat, d: int)
    requires ts != []
    ensures Stray(ts, k + 1, d) <==> Stray(ts[1..], k, d + Turn(ts[0]))
  {
    if k + 1 < |ts| {
      DepthFirst(ts[..k + 1]);
      assert ts[..k + 1][1..] == ts[1..][..k];
    }
  }

  lemma FirstStrayLater(ts: seq<string>, k: nat, d: int)
    requires ts != [] && !Stray(ts, 0, d) && FirstStray(ts[1..], k, d + Turn(ts[0]))
    ensures FirstStray(ts, k + 1, d) && ts[k + 1] == ts[1..][k]
  {
    StrayLater(ts, k, d);
    forall j: nat | j < k + 1 ensures !Stray(ts, j, d) {
      if j > 0 { StrayLater(ts, j - 1, d); }
    }
  }

  lemma OutcomeLater(ts: seq<string>, d: int, x: Option<A.Error>)
    requires ts != [] && !Stray(ts, 0, d) && Outcome(ts[1..], d + Turn(ts[0]), x)
    ensures Outcome(ts, d, x)
  {
    if x.None? {
      forall k: nat ensures !Stray(ts, k, d) {
        if k > 0 { StrayLater(ts, k - 1, d); }
      }
    } else {
      var k: nat :| FirstStray(ts[1..], k, d + Turn(ts[0]))
                    && x.value == if ts[1..][k] == "}" then A.UnexpectedClose else A.UnexpectedItem;
      FirstStrayLater(ts, k, d);
    }
  }

  function ErrorOf<T>(r: Result<T, A.Error>): Option<A.Error> { if r.Err? then Some(r.error) else None }

  lemma {:induction false} StepsOutcome(r: A.Reading, ts: seq<string>)
    ensures Outcome(ts, |r.stack|, ErrorOf(A.Steps(r, ts)))
    decreases |ts|
  {
    if ts != [] {
      assert ts[..0] == [];
      if Stray(ts, 0, |r.stack|) {
        assert A.Steps(r, ts) == A.Step(r, ts[0]);
      } else {
        StepsOutcome(A.Step(r, ts[0]).value, ts[1..]);
        OutcomeLater(ts, |r.stack|, ErrorOf(A.Steps(r, ts)));
      }
    }
  }

  /**
   A text is refused exactly if one of its tokens is in no list, or if it begins with a bracket and has no
   equal sign; the error is that of the first such token.
   */
  lemma LoadRefusesIff(s: string, c: A.Delimiter)
    ensures var body, x := A.WithoutDimensions(s), ErrorOf(A.Load(s, c));
            && (body.Err? <==> s != [] && s[0] == '[' && '=' !in s)
            && (if body.Err? then x == Some(A.NoDimensions) else Outcome(A.Tokens(body.value, c), 0, x))
  {
    var body := A.WithoutDimensions(s);
    if body.Ok? { StepsOutcome(A.Reading([], None), A.Tokens(body.value, c)); }
    if A.FindEquals(s) < |s| { assert s[A.FindEquals(s)] == '='; }
  }

  // ---------- composites ----------

  /** A field is printed as it is exactly if it is not empty and holds no quote, comma, backslash, parenthesis or blank. */
  lemma FieldQuotedIff(b: string)
    ensures C.FieldText(Some(b)) == b <==>
              && b != []
              && forall i :: 0 <= i < |b| ==> b[i] != '"' && b[i] != ',' && b[i] != '\\' && b[i] != '(' && b[i] != ')' && !Blank(b[i])
    ensures C.FieldText(Some(b)) != b ==> C.FieldText(Some(b))[0] == '"'
  {
    DoubledLength(b);
    assert forall i :: 0 <= i < |b| ==>
             (b[i] in "\",\\()" || Space(b[i])
              <==> b[i] == '"' || b[i] == ',' || b[i] == '\\' || b[i] == '(' || b[i] == ')' || Blank(b[i]));
    if C.NeedsQuotes(b) { assert |C.FieldText(Some(b))| > |b|; }
  }

  /** Quotes and backslashes are doubled, and nothing else. */
  lemma {:induction false} DoubledLength(b: string)
    ensures |C.Doubled(b)| == |b| + multiset(b)['"'] + multiset(b)['\\']
  {
    if b != [] {
      DoubledLength(b[1..]);
      assert b == [b[0]] + b[1..];
    }
  }

  /** Chars other than quotes, and quotes in pairs. */
  predicate Pairs(s: string) {
    || s == []
    || (s[0] != '"' && Pairs(s[1..]))
    || (|s| > 1 && s[0] == '"' && s[1] == '"' && Pairs(s[2..]))
  }

  /** After m chars a quoted field can end: with a quote that has only paired ones before it. */
  predicate ClosesAt(s: string, m: nat) { 0 < m <= |s| && s[m - 1] == '"' && Pairs(s[..m - 1]) }

  lemma ClosesLater(s: string, k: nat, m: nat)
    requires s != [] && (if s[0] != '"' then k == 1 else k == 2 && |s| > 1 && s[1] == '"') && m > k
    ensures ClosesAt(s, m) <==> ClosesAt(s[k..], m - k)
  {
    if m <= |s| { assert s[..m - 1][k..] == s[k..][..m - k - 1]; }
  }

  lemma LoneQuoteCloses(s: string, m: nat)
    requires s != [] && s[0] == '"' && (|s| == 1 || s[1] != '"') && m > 1
    ensures !ClosesAt(s, m)
  {
    if m <= |s| { assert s[..m - 1][0] == '"' && (m > 2 ==> s[..m - 1][1] == s[1]); }
  }

  /** A quoted field ends as late as it can, and it ends at all if a quote follows. */
  lemma {:induction false} FieldEnds(s: string)
    ensures var n := C.QuotedLen(s);
            && (n == 0 <==> '"' !in s) && (n > 0 ==> ClosesAt(s, n))
            && forall m: nat :: m > n ==> !ClosesAt(s, m)
    decreases |s|
  {
    if s != [] {
      var n, k := C.QuotedLen(s), if s[0] == '"' then 2 else 1;
      if s[0] == '"' && (|s| == 1 || s[1] != '"') {
        forall m: nat | m > 1 ensures !ClosesAt(s, m) { LoneQuoteCloses(s, m); }
      } else {
        FieldEnds(s[k..]);
        forall m: nat | m > n ensures !ClosesAt(s, m) {
          if m > k { ClosesLater(s, k, m); }
        }
        if n > k { ClosesLater(s, k, n); }
      }
    }
  }

  // ---------- COPY ----------

  /** The control characters that COPY escapes, and the letters they are written with. */
  const CONTROLS: seq<Wire.Byte> := [8, 9, 10, 11, 12, 13, 92]
  const LETTERS := "btnvfr\\"

  /** Exactly seven bytes are written as a backslash and a letter, each with its own. */
  lemma CopyEscapes(b: Wire.Byte)
    ensures forall k :: 0 <= k < 7 ==>
              F.LetterOf(CONTROLS[k]) == Some(LETTERS[k] as int) && F.ByteOf(LETTERS[k] as int) == Some(CONTROLS[k])
    ensures b !in CONTROLS ==> F.LetterOf(b) == None
    ensures (forall k :: 0 <= k < 7 ==> b != LETTERS[k] as int) ==> F.ByteOf(b) == None
  {
    assert CONTROLS[0] == 8 && CONTROLS[1] == 9 && CONTROLS[2] == 10 && CONTROLS[3] == 11
           && CONTROLS[4] == 12 && CONTROLS[5] == 13 && CONTROLS[6] == 92;
  }

  /** A text as bytes. */
  function Bytes(s: string): (r: Wire.Bytes)
    requires forall i :: 0 <= i < |s| ==> s[i] as int < 256
    ensures |r| == |s| && forall i :: 0 <= i < |s| ==> r[i] == s[i] as int
  {
    seq(|s|, i requires 0 <= i < |s| => s[i] as int)
  }

  /** The bytes that separate and mark: a tab between fields, a newline after a row, `\N` for NULL. */
  lemma CopyMarks()
    ensures [F.TAB] == Bytes("\t") && [F.NEWLINE] == Bytes("\n") && F.NULL_TEXT == Bytes("\\N")
  {
  }

  /** The signature of a binary stream, its flags and its extension; and the trailer, a field count of -1. */
  lemma SignatureIs()
    ensures F.SIGNATURE == Bytes("PGCOPY\n") + [0xff] + Bytes("\r\n") + [0]
                           + Wire.Unsigned4(0x8000) + Wire.Unsigned4(2) + Wire.Big(7, 2)
    ensures F.TRAILER == Wire.Signed2(-1)
  {
    SignatureBytes();
    F.TrailerIs();
  }

  lemma SignatureBytes()
    ensures Wire.Unsigned4(0x8000) == [0, 0, 128, 0] && Wire.Unsigned4(2) == [0, 0, 0, 2] && Wire.Big(7, 2) == [0, 7]
    ensures Bytes("PGCOPY\n") == [80, 71, 67, 79, 80, 89, 10] && Bytes("\r\n") == [13, 10]
  {
    Wire.BigEndian(0x8000);
    Wire.BigEndian(2);
    Wire.BigTwo(7);
  }
}
