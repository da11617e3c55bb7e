/**
 The text form of composite values: the printer of tuples, and the tokenizer that takes them apart.
 Fields are byte strings or NULL: the dumpers and loaders of the fields are taken as the identity.
 */
module Composite {
  import opened Util

  /** Text as bytes: every char stands for one byte. */
  type Bytes = string

  /** A field: None is NULL. */
  type Field = Option<Bytes>

  /** finditer found nothing, so the last match is not bound when it is looked at. */
  datatype Error = NoToken

  // ---------- printing ----------

  predicate NeedsQuotes(b: Bytes) { exists i :: 0 <= i < |b| && (b[i] in "\",\\()" || Space(b[i])) }

  function Doubled(b: Bytes): Bytes {
    if b == [] then [] else (if b[0] in "\"\\" then [b[0], b[0]] else [b[0]]) + Doubled(b[1..])
  }

  function FieldText(f: Field): Bytes {
    if f.None? then []
    else if f.value == [] then "\"\""
    else if NeedsQuotes(f.value) then "\"" + Doubled(f.value) + "\""
    else f.value
  }

  /** The texts of the fields with a separator between each two. */
  function Joined(fs: seq<Field>, sep: Bytes): Bytes {
    if fs == [] then []
    else if |fs| == 1 then FieldText(fs[0])
    else FieldText(fs[0]) + sep + Joined(fs[1..], sep)
  }

  /** dump of a tuple */
  function Dump(fs: seq<Field>): Bytes { "(" + Joined(fs, ",") + ")" }

  lemma {:induction false} JoinedSnoc(fs: seq<Field>, i: nat, sep: Bytes)
    requires i < |fs|
    ensures Joined(fs[..i + 1], sep) == (if i == 0 then [] else Joined(fs[..i], sep) + sep) + FieldText(fs[i])
    decreases i
  {
    if i > 0 {
      JoinedSnoc(fs[1..], i - 1, sep);
      assert fs[..i + 1][1..] == fs[1..][..i] && fs[..i][1..] == fs[1..][..i - 1];
      if i > 1 {
        Regroup(FieldText(fs[0]) + sep, Joined(fs[1..][..i - 1], sep), sep, FieldText(fs[i]));
      }
    }
  }

  /** The list of parts after i fields: the last part is a separator to be overwritten. */
  ghost predicate PartsAre(parts: seq<Bytes>, fs: seq<Field>, i: nat, start: Bytes, sep: Bytes) {
    && i <= |fs| && parts != []
    && if i == 0 then parts == [start]
       else parts[|parts| - 1] == sep && Concat(parts[..|parts| - 1]) == start + Joined(fs[..i], sep)
  }

  lemma PartsConcat(parts: seq<Bytes>, fs: seq<Field>, i: nat, start: Bytes, sep: Bytes)
    requires PartsAre(parts, fs, i, start, sep)
    ensures Concat(parts) == start + if i == 0 then [] else Joined(fs[..i], sep) + sep
  {
    if i == 0 {
      assert parts[1..] == [];
      assert start + [] == start;
    } else {
      var init := parts[..|parts| - 1];
      assert parts == init + [sep];
      ConcatSnoc(init, sep);
      Regroup(start, Joined(fs[..i], sep), sep, []);
    }
  }

  lemma PartsStep(parts: seq<Bytes>, fs: seq<Field>, i: nat, start: Bytes, sep: Bytes)
    requires i < |fs| && PartsAre(parts, fs, i, start, sep)
    ensures PartsAre(parts + [FieldText(fs[i])] + [sep], fs, i + 1, start, sep)
    ensures fs[i].None? ==> PartsAre(parts + [sep], fs, i + 1, start, sep)
  {
    var text := FieldText(fs[i]);
    PartsConcat(parts, fs, i, start, sep);
    ConcatSnoc(parts, text);
    JoinedSnoc(fs, i, sep);
    assert (parts + [text] + [sep])[..|parts| + 1] == parts + [text];
    if fs[i].None? {
      assert (parts + [sep])[..|parts|] == parts;
      assert Concat(parts) + [] == Concat(parts);
    }
  }

  lemma PartsEnd(parts: seq<Bytes>, fs: seq<Field>, start: Bytes, sep: Bytes, end: Bytes)
    requires fs != [] && PartsAre(parts, fs, |fs|, start, sep)
    ensures Concat(parts[|parts| - 1 := end]) == start + Joined(fs, sep) + end
  {
    assert fs[..|fs|] == fs;
    ConcatSnoc(parts[..|parts| - 1], end);
    assert parts[|parts| - 1 := end] == parts[..|parts| - 1] + [end];
  }

  /** _dump_sequence: each field is followed by a separator, and the last one is overwritten. */
  method DumpSequence(fs: seq<Field>, start: Bytes, end: Bytes, sep: Bytes) returns (r: Bytes)
    ensures r == start + Joined(fs, sep) + end
  {
    if fs == [] { return start + end; }
    var parts: seq<Bytes> := [start];
    for i := 0 to |fs|
      invariant PartsAre(parts, fs, i, start, sep)
    {
      PartsStep(parts, fs, i, start, sep);
      if fs[i].None? {
        parts := parts + [sep];
      } else {
        var ad := fs[i].value;
        if ad == [] {
          ad := "\"\"";
        } else if NeedsQuotes(ad) {
          ad := "\"" + Doubled(ad) + "\"";
        }
        parts := parts + [ad] + [sep];
      }
    }
    PartsEnd(parts, fs, start, sep, end);
    parts := parts[|parts| - 1 := end];
    r := Concat(parts);
  }

  // ---------- taking apart ----------

  /** How far a quoted string goes, its closing quote included, taking doubled quotes in as long as it can close; 0 if never. */
  function QuotedLen(s: Bytes): (r: nat)
    ensures r <= |s|
  {
    if s == [] then 0
    else if s[0] != '"' then (var n := QuotedLen(s[1..]); if n == 0 then 0 else n + 1)
    else if |s| > 1 && s[1] == '"' then (var n := QuotedLen(s[2..]); if n == 0 then 1 else n + 2)
    else 1
  }

  function WordLen(s: Bytes): (r: nat)
    ensures r <= |s| && (r < |s| ==> s[r] in "\",)")
    ensures forall i :: 0 <= i < r ==> s[i] !in "\",)"
  {
    if s == [] || s[0] in "\",)" then 0 else 1 + WordLen(s[1..])
  }

  /** A match: its length, 0 if there is none, and the field it stands for. */
  datatype Match = Match(len: nat, field: Field)

  /** A comma after a token belongs to the match. */
  function WithComma(s: Bytes, n: nat): (r: nat)
    requires n <= |s|
    ensures n <= r <= |s|
  {
    if n < |s| && s[n] == ',' then n + 1 else n
  }

  function MatchAt(s: Bytes): (r: Match)
    requires s != []
    ensures r.len <= |s|
  {
    if s[0] == ',' then Match(1, None)
    else if s[0] == '"' then
      var n := QuotedLen(s[1..]);
      if n == 0 then Match(0, None) else Match(WithComma(s, n + 1), Some(Undoubled(s[1..n])))
    else
      var n := WordLen(s);
      if n == 0 then Match(0, None) else Match(WithComma(s, n), Some(s[..n]))
  }

  function Undoubled(s: Bytes): Bytes {
    if s == [] then []
    else if |s| > 1 && s[0] == s[1] && s[0] in "\"\\" then [s[0]] + Undoubled(s[2..])
    else [s[0]] + Undoubled(s[1..])
  }

  /** The fields of the rest of a record; `comma` says if the last match ended in a comma, None if none was found. */
  function Parse(s: Bytes, comma: Option<bool>): Result<seq<Field>, Error>
    decreases |s|
  {
    if s == [] then
      if comma.None? then Err(NoToken) else Ok(if comma.value then [None] else [])
    else
      var m := MatchAt(s);
      if m.len == 0 then Parse(s[1..], comma) else
      Then([m.field], Parse(s[m.len..], Some(s[m.len - 1] == ',')))
  }

  function Then(fs: seq<Field>, rest: Result<seq<Field>, Error>): Result<seq<Field>, Error> {
    if rest.Ok? then Ok(fs + rest.value) else rest
  }

  /** load of a record; a text shorter than its brackets has no inside. */
  function Load(data: Bytes): Result<seq<Field>, Error> {
    if data == "()" then Ok([]) else Parse(if |data| < 2 then [] else data[1..|data| - 1], None)
  }

  lemma ThenTwice(a: seq<Field>, f: Field, rest: Result<seq<Field>, Error>)
    ensures Then(a, Then([f], rest)) == Then(a + [f], rest)
  {
    if rest.Ok? { assert a + ([f] + rest.value) == a + [f] + rest.value; }
  }

  /** What the rest of the record adds to the fields found. */
  ghost function From(data: Bytes, p: nat, out: seq<Field>, m: Option<bool>): Result<seq<Field>, Error>
    requires p <= |data|
  {
    Then(out, Parse(data[p..], m))
  }

  lemma FromStart(data: Bytes)
    ensures From(data, 0, [], None) == Parse(data, None)
  {
    assert data[0..] == data;
    var r := Parse(data, None);
    if r.Ok? { assert [] + r.value == r.value; }
  }

  lemma FromStep(data: Bytes, p: nat, out: seq<Field>, m: Option<bool>)
    requires p < |data|
    ensures var match_ := MatchAt(data[p..]);
            var q := p + match_.len;
            From(data, p, out, m) ==
              if match_.len == 0 then From(data, p + 1, out, m)
              else From(data, q, out + [match_.field], Some(data[q - 1] == ','))
  {
    var match_ := MatchAt(data[p..]);
    var q := p + match_.len;
    assert data[p..][1..] == data[p + 1..] && data[p..][match_.len..] == data[q..];
    if match_.len > 0 {
      ThenTwice(out, match_.field, Parse(data[q..], Some(data[q - 1] == ',')));
    }
  }

  lemma FromEnd(data: Bytes, out: seq<Field>, m: Option<bool>)
    ensures From(data, |data|, out, m)
            == if m.None? then Err(NoToken) else Ok(if m.value then out + [None] else out)
  {
    assert data[|data|..] == [];
    assert out + [] == out;
  }

  /** _parse_record: the loop over the matches, which keeps the last one. */
  method ParseRecord(data: Bytes) returns (r: Result<seq<Field>, Error>)
    ensures r == Parse(data, None)
  {
    var out: seq<Field>, p, m: Option<bool> := [], 0, None;
    FromStart(data);
    while p < |data|
      invariant p <= |data|
      invariant Parse(data, None) == From(data, p, out, m)
    {
      FromStep(data, p, out, m);
      var match_ := MatchAt(data[p..]);
      if match_.len == 0 {
        p := p + 1;
      } else {
        p := p + match_.len;
        out := out + [match_.field];
        m := Some(data[p - 1] == ',');
      }
    }
    FromEnd(data, out, m);
    if m.None? { return Err(NoToken); }
    if m.value { out := out + [None]; }
    r := Ok(out);
  }

  // ---------- the round trip ----------

  lemma {:induction false} UndoubledDoubled(b: Bytes)
    ensures Undoubled(Doubled(b)) == b
    ensures b != [] ==> Doubled(b) != [] && Doubled(b)[0] == b[0]
  {
    if b != [] {
      UndoubledDoubled(b[1..]);
      var n := if b[0] in "\"\\" then 2 else 1;
      assert Doubled(b)[n..] == Doubled(b[1..]);
    }
  }

  lemma {:induction false} QuotedLenOf(b: Bytes, rest: Bytes)
    requires rest == [] || rest[0] == ','
    ensures QuotedLen(Doubled(b) + "\"" + rest) == |Doubled(b)| + 1
  {
    if b != [] {
      QuotedLenOf(b[1..], rest);
      var n := if b[0] == '"' || b[0] == '\\' then 2 else 1;
      var s := Doubled(b) + "\"" + rest;
      assert s[n..] == Doubled(b[1..]) + "\"" + rest;
      if b[0] == '\\' {
        assert s[1..][1..] == s[2..];
      }
    }
  }

  lemma {:induction false} WordLenOf(b: Bytes, rest: Bytes)
    requires forall i :: 0 <= i < |b| ==> b[i] !in "\",)"
    requires rest == [] || rest[0] == ','
    ensures WordLen(b + rest) == |b|
  {
    if b == [] {
      assert b + rest == rest;
    } else {
      assert (b + rest)[1..] == b[1..] + rest;
      WordLenOf(b[1..], rest);
    }
  }

  lemma MatchQuoted(b: Bytes, rest: Bytes)
    requires rest == [] || rest[0] == ','
    ensures var t := "\"" + Doubled(b) + "\"";
            MatchAt(t + rest) == Match(|t| + (if rest == [] then 0 else 1), Some(b))
  {
    var t := "\"" + Doubled(b) + "\"";
    var s := t + rest;
    QuotedLenOf(b, rest);
    UndoubledDoubled(b);
    assert s[1..] == Doubled(b) + "\"" + rest;
    assert s[1..|Doubled(b)| + 1] == Doubled(b);
  }

  lemma MatchWord(b: Bytes, rest: Bytes)
    requires b != [] && !NeedsQuotes(b)
    requires rest == [] || rest[0] == ','
    ensures MatchAt(b + rest) == Match(|b| + (if rest == [] then 0 else 1), Some(b))
  {
    assert forall i :: 0 <= i < |b| ==> b[i] !in "\",\\()";
    WordLenOf(b, rest);
    assert (b + rest)[..|b|] == b;
    assert (b + rest)[0] == b[0];
  }

  /** A field that is not NULL is one match, with the comma after it. */
  lemma MatchField(f: Field, rest: Bytes)
    requires f.Some? && (rest == [] || rest[0] == ',')
    ensures var s := FieldText(f) + rest;
            s != [] && MatchAt(s) == Match(|FieldText(f)| + (if rest == [] then 0 else 1), f)
  {
    if f.value == [] || NeedsQuotes(f.value) {
      assert FieldText(f) == "\"" + Doubled(f.value) + "\"";
      MatchQuoted(f.value, rest);
    } else {
      MatchWord(f.value, rest);
    }
  }

  /** A field and the comma after it are one match. */
  lemma ParseField(f: Field, rest: Bytes, comma: Option<bool>)
    ensures Parse(FieldText(f) + "," + rest, comma) == Then([f], Parse(rest, Some(true)))
  {
    var s := FieldText(f) + ("," + rest);
    assert s == FieldText(f) + "," + rest;
    var n := |FieldText(f)| + 1;
    if f.Some? { MatchField(f, "," + rest); }
    assert MatchAt(s) == Match(n, f);
    assert s[n..] == rest && s[n - 1] == ',';
  }

  lemma ParseLast(f: Field, comma: Option<bool>)
    requires f == None ==> comma == Some(true)
    ensures Parse(FieldText(f), comma) == Ok([f])
  {
    if f.Some? {
      var s := FieldText(f);
      MatchField(f, []);
      assert s + [] == s;
      assert s[|s|..] == [];
      assert [f] + [] == [f];
      assert Parse([], Some(false)) == Ok([]);
      assert s[|s| - 1] != ',' by {
        if !(f.value == [] || NeedsQuotes(f.value)) {
          assert f.value[|f.value| - 1] !in "\",\\()";
        }
      }
    }
  }

  /** The fields come back, if the first of them is not a lone NULL with nothing before it. */
  lemma {:induction false} ParseJoined(fs: seq<Field>, comma: Option<bool>)
    requires fs != [] && (fs == [None] ==> comma == Some(true))
    ensures Parse(Joined(fs, ","), comma) == Ok(fs)
    decreases |fs|
  {
    if |fs| == 1 {
      ParseLast(fs[0], comma);
      assert fs == [fs[0]];
    } else {
      ParseJoined(fs[1..], Some(true));
      ParseField(fs[0], Joined(fs[1..], ","), comma);
      assert fs == [fs[0]] + fs[1..];
    }
  }

  /** Every tuple is read back as it was, except the one that holds a single NULL: it prints as the empty one. */
  lemma RoundTrip(fs: seq<Field>)
    ensures Load(Dump(fs)) == Ok(fs) <==> fs != [None]
    ensures fs == [None] ==> Load(Dump(fs)) == Ok([])
  {
    var data := Dump(fs);
    var s := Joined(fs, ",");
    assert data[1..|data| - 1] == s;
    if s == [] {
      assert data == "()";
    } else {
      assert |data| > 2;
      ParseJoined(fs, None);
    }
  }
}
