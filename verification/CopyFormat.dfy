/**
 The rows of COPY in text and in binary form, and the streams of rows: how each row is formatted into
 the buffer, and how it is parsed back from a line or from its bytes. Fields are byte strings or NULL:
 the dumpers and loaders of the fields are taken as the identity.
 */
module CopyFormat {
  import opened Util
  import opened Wire

  /** A field: None is NULL. */
  type Field = Option<Bytes>

  const TAB: Byte := 9

  const NEWLINE: Byte := 10

  const BACKSLASH: Byte := 92

  /** The marker of a NULL in text: a backslash and a capital N. */
  const NULL_TEXT: Bytes := [92, 78]

  // ---------- text ----------

  /** The letter that stands for a byte after a backslash: \b \t \n \v \f \r and the backslash itself. */
  function LetterOf(b: Byte): (r: Option<Byte>)
    ensures r.Some? ==> ByteOf(r.value) == Some(b)
  {
    if b == 8 then Some(98) else if b == 9 then Some(116) else if b == 10 then Some(110)
    else if b == 11 then Some(118) else if b == 12 then Some(102) else if b == 13 then Some(114)
    else if b == 92 then Some(92) else None
  }

  function ByteOf(letter: Byte): Option<Byte> {
    if letter == 98 then Some(8) else if letter == 116 then Some(9) else if letter == 110 then Some(10)
    else if letter == 118 then Some(11) else if letter == 102 then Some(12) else if letter == 114 then Some(13)
    else if letter == 92 then Some(92) else None
  }

  function Escaped(s: Bytes): Bytes {
    if s == [] then []
    else (if LetterOf(s[0]).Some? then [BACKSLASH, LetterOf(s[0]).value] else [s[0]]) + Escaped(s[1..])
  }

  function Unescaped(s: Bytes): Bytes {
    if s == [] then []
    else if s[0] == BACKSLASH && |s| > 1 && ByteOf(s[1]).Some? then [ByteOf(s[1]).value] + Unescaped(s[2..])
    else [s[0]] + Unescaped(s[1..])
  }

  function FieldText(f: Field): Bytes { if f.None? then NULL_TEXT else Escaped(f.value) }

  /** The texts of the fields with a tab between each two. */
  function Tabbed(row: seq<Field>): Bytes {
    if row == [] then []
    else if |row| == 1 then FieldText(row[0])
    else FieldText(row[0]) + [TAB] + Tabbed(row[1..])
  }

  function RowText(row: seq<Field>): Bytes { Tabbed(row) + [NEWLINE] }

  /** split */
  function Pieces(s: Bytes): (r: seq<Bytes>)
    ensures r != []
  {
    if s == [] then [[]]
    else if s[0] == TAB then [[]] + Pieces(s[1..])
    else
      var rest := Pieces(s[1..]);
      [[s[0]] + rest[0]] + rest[1..]
  }

  function FieldOf(piece: Bytes): Field { if piece == NULL_TEXT then None else Some(Unescaped(piece)) }

  function FieldsOf(pieces: seq<Bytes>): (r: seq<Field>)
    ensures |r| == |pieces|
  {
    if pieces == [] then [] else [FieldOf(pieces[0])] + FieldsOf(pieces[1..])
  }

  /** The pieces with the last byte of the last one dropped. */
  function LastShort(pieces: seq<Bytes>): seq<Bytes>
    requires pieces != []
  {
    var n := |pieces| - 1;
    pieces[n := pieces[n][..Max(0, |pieces[n]| - 1)]]
  }

  /** _parse_row_text */
  function ParseRowText(data: Bytes): seq<Field> { FieldsOf(LastShort(Pieces(data))) }

  lemma {:induction false} UnescapedEscaped(s: Bytes)
    ensures Unescaped(Escaped(s)) == s
  {
    if s != [] {
      UnescapedEscaped(s[1..]);
      var n := if LetterOf(s[0]).Some? then 2 else 1;
      assert Escaped(s)[n..] == Escaped(s[1..]);
    }
  }

  lemma {:induction false} EscapedClean(s: Bytes)
    ensures TAB !in Escaped(s) && NEWLINE !in Escaped(s)
    ensures Escaped(s) != NULL_TEXT
  {
    if s != [] {
      EscapedClean(s[1..]);
      if LetterOf(s[0]).Some? {
        assert Escaped(s)[1] == LetterOf(s[0]).value;
      } else {
        assert Escaped(s)[0] == s[0] != BACKSLASH;
      }
    }
  }

  lemma FieldTextClean(f: Field)
    ensures TAB !in FieldText(f) && NEWLINE !in FieldText(f) && FieldOf(FieldText(f)) == f
  {
    if f.Some? {
      EscapedClean(f.value);
      UnescapedEscaped(f.value);
    }
  }

  lemma {:induction false} PiecesOne(t: Bytes)
    requires TAB !in t
    ensures Pieces(t) == [t]
  {
    if t != [] {
      PiecesOne(t[1..]);
      assert [t[0]] + t[1..] == t;
    }
  }

  lemma {:induction false} PiecesFirst(t: Bytes, rest: Bytes)
    requires TAB !in t
    ensures Pieces(t + [TAB] + rest) == [t] + Pieces(rest)
  {
    var s := t + [TAB] + rest;
    if t == [] {
      assert s[1..] == rest;
    } else {
      assert s[1..] == t[1..] + [TAB] + rest;
      PiecesFirst(t[1..], rest);
      assert [t[0]] + t[1..] == t;
      assert ([t[1..]] + Pieces(rest))[1..] == Pieces(rest);
    }
  }

  function Texts(row: seq<Field>): (r: seq<Bytes>)
    ensures |r| == |row|
  {
    if row == [] then [] else [FieldText(row[0])] + Texts(row[1..])
  }

  lemma {:induction false} PiecesOfRow(row: seq<Field>)
    requires row != []
    ensures var t := Texts(row);
            Pieces(RowText(row)) == t[|row| - 1 := t[|row| - 1] + [NEWLINE]]
  {
    var t := FieldText(row[0]);
    FieldTextClean(row[0]);
    if |row| == 1 {
      assert TAB !in t + [NEWLINE];
      PiecesOne(t + [NEWLINE]);
    } else {
      PiecesOfRow(row[1..]);
      assert RowText(row) == t + [TAB] + RowText(row[1..]);
      PiecesFirst(t, RowText(row[1..]));
    }
  }

  lemma {:induction false} FieldsOfTexts(row: seq<Field>)
    ensures FieldsOf(Texts(row)) == row
  {
    if row != [] {
      FieldTextClean(row[0]);
      FieldsOfTexts(row[1..]);
      assert Texts(row)[1..] == Texts(row[1..]);
      assert row == [row[0]] + row[1..];
    }
  }

  /** A row is read back as it was, unless it has no fields: then it reads as one empty field. */
  lemma TextRoundTrip(row: seq<Field>)
    ensures ParseRowText(RowText(row)) == row <==> row != []
    ensures row == [] ==> ParseRowText(RowText(row)) == [Some([])]
  {
    if row == [] {
      PiecesOne([NEWLINE]);
      assert RowText(row) == [NEWLINE];
      assert LastShort([[NEWLINE]]) == [[]];
      assert FieldsOf([[]]) == [FieldOf([])] + FieldsOf([]);
    } else {
      PiecesOfRow(row);
      var t, n := Texts(row), |row| - 1;
      assert (t[n] + [NEWLINE])[..|t[n]|] == t[n];
      assert LastShort(Pieces(RowText(row))) == t;
      FieldsOfTexts(row);
    }
  }

  lemma {:induction false} TabbedSnoc(row: seq<Field>, i: nat)
    requires i < |row|
    ensures Tabbed(row[..i + 1]) == SoFar(row, i) + FieldText(row[i])
    decreases i
  {
    if i > 0 {
      TabbedSnoc(row[1..], i - 1);
      assert row[..i + 1][1..] == row[1..][..i] && row[..i][1..] == row[1..][..i - 1];
      assert Tabbed(row[..i + 1]) == FieldText(row[0]) + [TAB] + Tabbed(row[1..][..i]);
      if i > 1 {
        assert Tabbed(row[..i]) == FieldText(row[0]) + [TAB] + Tabbed(row[1..][..i - 1]);
        Regroup(FieldText(row[0]) + [TAB], Tabbed(row[1..][..i - 1]), [TAB], FieldText(row[i]));
      }
    }
  }

  /** The text of the first i fields, each with its tab. */
  function SoFar(row: seq<Field>, i: nat): Bytes
    requires i <= |row|
  {
    if i == 0 then [] else Tabbed(row[..i]) + [TAB]
  }

  lemma SoFarStep(row: seq<Field>, i: nat, out: Bytes)
    requires i < |row|
    ensures out + SoFar(row, i + 1) == out + SoFar(row, i) + FieldText(row[i]) + [TAB]
  {
    TabbedSnoc(row, i);
    Regroup(out, SoFar(row, i), FieldText(row[i]), [TAB]);
    Regroup(SoFar(row, i), FieldText(row[i]), [TAB], []);
  }

  lemma SoFarEnd(row: seq<Field>, out: Bytes)
    requires row != []
    ensures var r := out + SoFar(row, |row|);
            r != [] && r[..|r| - 1] + [NEWLINE] == out + RowText(row)
  {
    var r := out + SoFar(row, |row|);
    assert row[..|row|] == row;
    assert r[..|r| - 1] == out + Tabbed(row);
  }

  /** _format_row_text: the row is added to `out`, and the last tab overwritten. */
  method FormatRowText(row: seq<Field>, out: Bytes) returns (r: Bytes)
    ensures r == out + RowText(row)
  {
    r := out;
    if row == [] {
      r := r + [NEWLINE];
      return;
    }
    for i := 0 to |row|
      invariant r == out + SoFar(row, i)
    {
      SoFarStep(row, i, out);
      var f := row[i];
      r := r + (if f.Some? then Escaped(f.value) else NULL_TEXT);
      r := r + [TAB];
    }
    SoFarEnd(row, out);
    r := r[..|r| - 1] + [NEWLINE];
  }

  // ---------- a stream of text rows ----------

  function RowsText(rows: seq<seq<Field>>): Bytes {
    if rows == [] then [] else RowText(rows[0]) + RowsText(rows[1..])
  }

  /** The stream cut after each newline; what is left at the end counts if it is not empty. */
  function Lines(s: Bytes): seq<Bytes> {
    if s == [] then []
    else if s[0] == NEWLINE then [[NEWLINE]] + Lines(s[1..])
    else
      var rest := Lines(s[1..]);
      if rest == [] then [[s[0]]] else [[s[0]] + rest[0]] + rest[1..]
  }

  function ParseLines(lines: seq<Bytes>): seq<seq<Field>> {
    if lines == [] then [] else [ParseRowText(lines[0])] + ParseLines(lines[1..])
  }

  lemma {:induction false} LinesFirst(t: Bytes, rest: Bytes)
    requires NEWLINE !in t
    ensures Lines(t + [NEWLINE] + rest) == [t + [NEWLINE]] + Lines(rest)
  {
    var s := t + [NEWLINE] + rest;
    if t == [] {
      assert s[1..] == rest && t + [NEWLINE] == [NEWLINE];
    } else {
      assert s[1..] == t[1..] + [NEWLINE] + rest;
      LinesFirst(t[1..], rest);
      assert [t[0]] + (t[1..] + [NEWLINE]) == t + [NEWLINE];
      assert ([t[1..] + [NEWLINE]] + Lines(rest))[1..] == Lines(rest);
    }
  }

  lemma {:induction false} TabbedClean(row: seq<Field>)
    ensures NEWLINE !in Tabbed(row)
  {
    if row != [] {
      FieldTextClean(row[0]);
      TabbedClean(row[1..]);
    }
  }

  predicate NoneEmpty(rows: seq<seq<Field>>) {
    rows != [] ==> rows[0] != [] && NoneEmpty(rows[1..])
  }

  /** The text stream cut at newlines reads as the rows that were written, none of them empty. */
  lemma {:induction false} StreamReadsBack(rows: seq<seq<Field>>)
    requires NoneEmpty(rows)
    ensures ParseLines(Lines(RowsText(rows))) == rows
  {
    if rows != [] {
      var rest := Lines(RowsText(rows[1..]));
      LinesRow(rows[0], RowsText(rows[1..]));
      StreamReadsBack(rows[1..]);
      ParseLinesFirst(rows[0], rest);
      assert rows == [rows[0]] + rows[1..];
    }
  }

  lemma ParseLinesFirst(row: seq<Field>, rest: seq<Bytes>)
    requires row != []
    ensures ParseLines([RowText(row)] + rest) == [row] + ParseLines(rest)
  {
    TextRoundTrip(row);
    assert ([RowText(row)] + rest)[1..] == rest;
  }

  lemma LinesRow(row: seq<Field>, rest: Bytes)
    ensures Lines(RowText(row) + rest) == [RowText(row)] + Lines(rest)
  {
    TabbedClean(row);
    LinesFirst(Tabbed(row), rest);
  }

  // ---------- binary ----------

  datatype Error = BadStruct

  predicate FieldFits(f: Field) { f.Some? ==> |f.value| < HALF4 }

  predicate RowFits(row: seq<Field>) { |row| < HALF2 && FieldsFit(row) }

  predicate FieldsFit(row: seq<Field>) {
    row != [] ==> FieldFits(row[0]) && FieldsFit(row[1..])
  }

  function FieldBinary(f: Field): Bytes
    requires FieldFits(f)
  {
    if f.None? then Signed4(-1) else Signed4(|f.value|) + f.value
  }

  /** The fields up to the first one that is too long. */
  function FieldsBinary(row: seq<Field>): Bytes {
    if row == [] || !FieldFits(row[0]) then [] else FieldBinary(row[0]) + FieldsBinary(row[1..])
  }

  /** What a row adds to the buffer: all of it, or what comes before the error. */
  function RowBinary(row: seq<Field>): Bytes {
    if |row| < HALF2 then Signed2(|row|) + FieldsBinary(row) else []
  }

  lemma {:induction false} FieldsBinarySnoc(row: seq<Field>, i: nat)
    requires i < |row| && FieldsFit(row[..i])
    ensures FieldsFit(row[..i + 1]) <==> FieldFits(row[i])
    ensures FieldFits(row[i]) ==> FieldsBinary(row[..i + 1]) == FieldsBinary(row[..i]) + FieldBinary(row[i])
    ensures !FieldFits(row[i]) ==> !FieldsFit(row) && FieldsBinary(row) == FieldsBinary(row[..i])
    decreases i
  {
    if i > 0 {
      assert row[..i][1..] == row[1..][..i - 1] && row[..i + 1][1..] == row[1..][..i];
      FieldsBinarySnoc(row[1..], i - 1);
    } else {
      assert row[..1][1..] == [];
      assert FieldFits(row[0]) ==> FieldBinary(row[0]) + [] == FieldBinary(row[0]);
    }
  }

  /** _format_row_binary; on an error, what was added before it stays. */
  method FormatRowBinary(row: seq<Field>, out: Bytes) returns (r: Bytes, ok: bool)
    ensures r == out + RowBinary(row)
    ensures ok <==> RowFits(row)
  {
    r := out;
    if |row| >= HALF2 { return r + [], false; }
    r := r + Signed2(|row|);
    ghost var count := r;
    NullBytes();
    for i := 0 to |row|
      invariant FieldsFit(row[..i])
      invariant r == count + FieldsBinary(row[..i])
    {
      FieldsBinarySnoc(row, i);
      var f := row[i];
      if f.Some? && |f.value| >= HALF4 {
        Regroup(out, Signed2(|row|), FieldsBinary(row[..i]), []);
        return r, false;
      }
      Regroup(count, FieldsBinary(row[..i]), FieldBinary(f), []);
      if f.Some? {
        Regroup(r, Signed4(|f.value|), f.value, []);
        r := r + Signed4(|f.value|);
        r := r + f.value;
      } else {
        r := r + [255, 255, 255, 255];
      }
    }
    assert row[..|row|] == row;
    Regroup(out, Signed2(|row|), FieldsBinary(row), []);
    ok := true;
  }

  lemma NullBytes()
    ensures Signed4(-1) == [255, 255, 255, 255]
  {
    assert Signed4(-1) == Big(0xffff_ffff, 4);
    assert Big(0xffff_ffff, 4) == Big(0xff_ffff, 3) + [255];
    assert Big(0xff_ffff, 3) == Big(0xffff, 2) + [255];
    assert Big(0xffff, 2) == Big(0xff, 1) + [255];
    assert Big(0xff, 1) == Big(0, 0) + [255];
  }

  /** The next n fields, and what follows them. */
  function TakeFields(data: Bytes, n: nat): Result<(seq<Field>, Bytes), Error> {
    if n == 0 then Ok(([], data))
    else if |data| < 4 then Err(BadStruct)
    else
      var length := ToSigned4(data[..4]);
      var rest := data[4..];
      var len := if length >= 0 then Min(length, |rest|) else 0;
      var more := TakeFields(rest[len..], n - 1);
      if more.Err? then more
      else Ok(([if length >= 0 then Some(rest[..len]) else None] + more.value.0, more.value.1))
  }

  /** _parse_row_binary */
  function ParseRowBinary(data: Bytes): Result<seq<Field>, Error> {
    if |data| < 2 then Err(BadStruct) else
    var r := TakeFields(data[2..], Max(0, ToSigned2(data[..2])));
    if r.Err? then Err(r.error) else Ok(r.value.0)
  }

  /** The bytes from a position on; none if it lies beyond the end. */
  function At(data: Bytes, pos: nat): Bytes { if pos <= |data| then data[pos..] else [] }

  /** The fields read so far, before those still to read. */
  ghost function Reading(row: seq<Field>, data: Bytes, pos: nat, n: nat): Result<seq<Field>, Error> {
    var r := TakeFields(At(data, pos), n);
    if r.Err? then Err(r.error) else Ok(row + r.value.0)
  }

  /** The field at a position, cut short if the data is. */
  function FieldAt(data: Bytes, pos: nat): Field
    requires pos + 4 <= |data|
  {
    var length := ToSigned4(data[pos..pos + 4]);
    if length >= 0 then Some(data[pos + 4..pos + 4 + Min(length, |data| - pos - 4)]) else None
  }

  /** Where the field after this one starts. */
  function NextAt(data: Bytes, pos: nat): nat
    requires pos + 4 <= |data|
  {
    pos + 4 + Max(0, ToSigned4(data[pos..pos + 4]))
  }

  function FieldThen(f: Field, more: Result<(seq<Field>, Bytes), Error>): Result<(seq<Field>, Bytes), Error> {
    if more.Err? then more else Ok(([f] + more.value.0, more.value.1))
  }

  lemma TakeAt(data: Bytes, pos: nat, n: nat)
    requires 0 < n && pos + 4 <= |data|
    ensures TakeFields(At(data, pos), n) == FieldThen(FieldAt(data, pos), TakeFields(At(data, NextAt(data, pos)), n - 1))
  {
    if ToSigned4(data[pos..pos + 4]) < 0 {
      TakeNullAt(data, pos, n);
    } else {
      TakeValueAt(data, pos, n);
    }
  }

  lemma TakeNullAt(data: Bytes, pos: nat, n: nat)
    requires 0 < n && pos + 4 <= |data| && ToSigned4(data[pos..pos + 4]) < 0
    ensures TakeFields(At(data, pos), n) == FieldThen(None, TakeFields(At(data, pos + 4), n - 1))
  {
    AtNext(data, pos, 0);
  }

  lemma TakeValueAt(data: Bytes, pos: nat, n: nat)
    requires 0 < n && pos + 4 <= |data| && ToSigned4(data[pos..pos + 4]) >= 0
    ensures TakeFields(At(data, pos), n) == FieldThen(FieldAt(data, pos), TakeFields(At(data, NextAt(data, pos)), n - 1))
  {
    var length := ToSigned4(data[pos..pos + 4]);
    var len, d := Min(length, |data| - pos - 4), At(data, pos);
    AtNext(data, pos, length);
    assert d[..4] == data[pos..pos + 4] && |d[4..]| == |data| - pos - 4;
    assert TakeFields(d, n) == FieldThen(Some(d[4..][..len]), TakeFields(d[4..][len..], n - 1));
  }

  lemma ReadingStep(row: seq<Field>, data: Bytes, pos: nat, n: nat)
    requires 0 < n && pos + 4 <= |data|
    ensures Reading(row, data, pos, n) == Reading(row + [FieldAt(data, pos)], data, NextAt(data, pos), n - 1)
  {
    TakeAt(data, pos, n);
    FieldThenRow(row, FieldAt(data, pos), TakeFields(At(data, NextAt(data, pos)), n - 1));
  }

  lemma FieldThenRow(row: seq<Field>, f: Field, more: Result<(seq<Field>, Bytes), Error>)
    ensures more.Ok? ==> row + FieldThen(f, more).value.0 == row + [f] + more.value.0
  {
    if more.Ok? { Regroup(row, [f], more.value.0, []); }
  }

  lemma AtNext(data: Bytes, pos: nat, length: nat)
    requires pos + 4 <= |data|
    ensures var len := Min(length, |data| - pos - 4);
            && |At(data, pos)| == |data| - pos
            && At(data, pos)[..4] == data[pos..pos + 4]
            && At(data, pos)[4..][..len] == data[pos + 4..pos + 4 + len]
            && At(data, pos)[4..][len..] == At(data, pos + 4 + length)
            && (length == 0 ==> At(data, pos)[4..] == At(data, pos + 4))
  {
  }

  method ReadField(data: Bytes, pos: nat) returns (f: Field, next: nat)
    requires pos + 4 <= |data|
    ensures f == FieldAt(data, pos) && next == NextAt(data, pos)
  {
    var length := ToSigned4(data[pos..pos + 4]);
    f, next := None, pos + 4;
    if length >= 0 {
      f := Some(data[next..next + Min(length, |data| - next)]);
      next := next + length;
    }
  }

  /** _parse_row_binary: the loop over the fields, `pos` moving past each. */
  method ParseRowBinaryLoop(data: Bytes) returns (r: Result<seq<Field>, Error>)
    ensures r == ParseRowBinary(data)
  {
    if |data| < 2 { return Err(BadStruct); }
    var nfields := ToSigned2(data[..2]);
    var n: nat, pos: nat, row: seq<Field> := Max(0, nfields), 2, [];
    assert Reading([], data, 2, n) == ParseRowBinary(data) by {
      var t := TakeFields(data[2..], n);
      if t.Ok? { assert [] + t.value.0 == t.value.0; }
    }
    for i := 0 to n
      invariant ParseRowBinary(data) == Reading(row, data, pos, n - i)
    {
      if pos + 4 > |data| {
        assert |At(data, pos)| < 4;
        return Err(BadStruct);
      }
      ReadingStep(row, data, pos, n - i);
      var f: Field;
      f, pos := ReadField(data, pos);
      row := row + [f];
    }
    assert row + [] == row;
    r := Ok(row);
  }

  lemma TakeField(f: Field, rest: Bytes, n: nat)
    requires FieldFits(f)
    ensures var more := TakeFields(rest, n);
            TakeFields(FieldBinary(f) + rest, n + 1) ==
              if more.Err? then more else Ok(([f] + more.value.0, more.value.1))
  {
    var data := FieldBinary(f) + rest;
    if f.None? {
      assert data[..4] == Signed4(-1) && data[4..] == rest;
      assert rest[0..] == rest;
    } else {
      assert data[..4] == Signed4(|f.value|) && data[4..] == f.value + rest;
      assert (f.value + rest)[..|f.value|] == f.value && (f.value + rest)[|f.value|..] == rest;
    }
  }

  lemma {:induction false} TakeFieldsOf(row: seq<Field>, rest: Bytes)
    requires FieldsFit(row)
    ensures TakeFields(FieldsBinary(row) + rest, |row|) == Ok((row, rest))
  {
    if row == [] {
      assert FieldsBinary(row) + rest == rest;
    } else {
      TakeFieldsOf(row[1..], rest);
      TakeField(row[0], FieldsBinary(row[1..]) + rest, |row| - 1);
      Regroup(FieldBinary(row[0]), FieldsBinary(row[1..]), rest, []);
      assert row == [row[0]] + row[1..];
    }
  }

  /** A row is read back as it was, whatever its fields. */
  lemma BinaryRoundTrip(row: seq<Field>)
    requires RowFits(row)
    ensures ParseRowBinary(RowBinary(row)) == Ok(row)
  {
    var data := RowBinary(row);
    assert data[..2] == Signed2(|row|) && data[2..] == FieldsBinary(row);
    TakeFieldsOf(row, []);
    assert FieldsBinary(row) + [] == FieldsBinary(row);
  }

  // ---------- a stream of binary rows ----------

  const SIGNATURE: Bytes :=
    [80, 71, 67, 79, 80, 89, 10, 255, 13, 10, 0] + [0, 0, 128, 0] + [0, 0, 0, 2, 0, 7]

  const TRAILER: Bytes := [255, 255]

  function RowsBinary(rows: seq<seq<Field>>): Bytes {
    if rows == [] then [] else RowBinary(rows[0]) + RowsBinary(rows[1..])
  }

  /** A reader of the stream after its signature: rows up to a field count of -1, which must end it. */
  function ReadRows(data: Bytes): Result<seq<seq<Field>>, Error>
    decreases |data|
  {
    if |data| < 2 then Err(BadStruct) else
    var n := ToSigned2(data[..2]);
    if n == -1 then (if |data| == 2 then Ok([]) else Err(BadStruct))
    else if n < 0 then Err(BadStruct)
    else
      var row := TakeFields(data[2..], n);
      if row.Err? then Err(row.error) else
      TakeFieldsShorter(data[2..], n);
      var more := ReadRows(row.value.1);
      if more.Err? then more else Ok([row.value.0] + more.value)
  }

  lemma {:induction false} TakeFieldsShorter(data: Bytes, n: nat)
    ensures TakeFields(data, n).Ok? ==> |TakeFields(data, n).value.1| <= |data|
  {
    if n > 0 && |data| >= 4 {
      var length := ToSigned4(data[..4]);
      var rest := data[4..];
      TakeFieldsShorter(rest[if length >= 0 then Min(length, |rest|) else 0..], n - 1);
    }
  }

  lemma TrailerIs()
    ensures Signed2(-1) == TRAILER
  {
    assert Big(0xffff, 2) == Big(0xff, 1) + [255];
    assert Big(0xff, 1) == Big(0, 0) + [255];
  }

  predicate RowsFit(rows: seq<seq<Field>>) {
    rows != [] ==> RowFits(rows[0]) && RowsFit(rows[1..])
  }

  /** Rows and a trailer read as the rows: the binary stream needs no other separator. */
  lemma {:induction false} BinaryStreamReadsBack(rows: seq<seq<Field>>)
    requires RowsFit(rows)
    ensures ReadRows(RowsBinary(rows) + TRAILER) == Ok(rows)
  {
    if rows == [] {
      TrailerIs();
      assert RowsBinary(rows) + TRAILER == TRAILER;
      assert TRAILER[..2] == TRAILER;
    } else {
      var row, rest := rows[0], RowsBinary(rows[1..]) + TRAILER;
      var data := Signed2(|row|) + (FieldsBinary(row) + rest);
      Regroup(Signed2(|row|), FieldsBinary(row), RowsBinary(rows[1..]), TRAILER);
      assert RowsBinary(rows) + TRAILER == data;
      assert data[..2] == Signed2(|row|) && data[2..] == FieldsBinary(row) + rest;
      TakeFieldsOf(row, rest);
      BinaryStreamReadsBack(rows[1..]);
      assert rows == [row] + rows[1..];
    }
  }
}
