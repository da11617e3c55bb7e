/**
 COPY FROM: rows and blocks go through the formatter's buffer, out in chunks, and to the server. The
 bytes that reach the server do not depend on how they were buffered and chunked.
 */
module CopyStream {
  import opened Util
  import opened Wire
  import opened CopyFormat

  /** Buffered rows are sent when there are more bytes than this. */
  const BUFFER_SIZE := 32 * 1024

  const MAX_BUFFER_SIZE := 4 * BUFFER_SIZE

  // ---------- what is written ----------

  /** A call of write_row or of write. */
  datatype Op = Row(row: seq<Field>) | Block(data: Bytes)

  function RowBytes(binary: bool, row: seq<Field>): Bytes {
    if binary then RowBinary(row) else RowText(row)
  }

  /** The formatter: its buffer, and what it has put out already. */
  datatype Format = Format(binary: bool, buffer: Bytes, rowMode: bool, signatureSent: bool, out: Bytes)

  function Fresh(binary: bool): Format { Format(binary, [], false, false, []) }

  function Signed(f: Format): Bytes { if f.binary && !f.signatureSent then SIGNATURE else [] }

  function WriteOp(f: Format, op: Op): Format {
    match op
    case Row(row) =>
      var buffer := f.buffer + Signed(f) + RowBytes(f.binary, row);
      if |buffer| > BUFFER_SIZE then Format(f.binary, [], true, true, f.out + buffer)
      else Format(f.binary, buffer, true, true, f.out)
    case Block(data) => f.(signatureSent := true, out := f.out + data)
  }

  /** end: what is still in the buffer, and the trailer of a binary stream of rows. */
  function EndBytes(f: Format): Bytes {
    if !f.binary then f.buffer
    else if !f.signatureSent then f.buffer + SIGNATURE + TRAILER
    else if f.rowMode then f.buffer + TRAILER
    else f.buffer
  }

  function WriteAll(f: Format, ops: seq<Op>): Format
    decreases |ops|
  {
    if ops == [] then f else WriteAll(WriteOp(f, ops[0]), ops[1..])
  }

  /** Everything put out by the end of a copy. */
  function Output(binary: bool, ops: seq<Op>): Bytes {
    var f := WriteAll(Fresh(binary), ops);
    f.out + EndBytes(f)
  }

  // ---------- what should reach the server ----------

  function OpBytes(binary: bool, op: Op): Bytes {
    match op
    case Row(row) => RowBytes(binary, row)
    case Block(data) => data
  }

  function InOrder(binary: bool, ops: seq<Op>): Bytes {
    if ops == [] then [] else OpBytes(binary, ops[0]) + InOrder(binary, ops[1..])
  }

  predicate HasRow(ops: seq<Op>) { ops != [] && (ops[0].Row? || HasRow(ops[1..])) }

  /** The signature, unless a block comes first and is trusted to hold it. */
  function Opening(binary: bool, ops: seq<Op>): Bytes {
    if binary && (ops == [] || ops[0].Row?) then SIGNATURE else []
  }

  /** The trailer, unless all came in blocks. */
  function Closing(binary: bool, ops: seq<Op>): Bytes {
    if binary && (ops == [] || HasRow(ops)) then TRAILER else []
  }

  function Expected(binary: bool, ops: seq<Op>): Bytes {
    Opening(binary, ops) + InOrder(binary, ops) + Closing(binary, ops)
  }

  /** No block is written while rows wait in the buffer: it would be sent before them. */
  predicate NoneOvertaken(f: Format, ops: seq<Op>)
    decreases |ops|
  {
    ops != [] ==> (ops[0].Block? && ops[0].data != [] ==> f.buffer == []) && NoneOvertaken(WriteOp(f, ops[0]), ops[1..])
  }

  /** Put out and still to be: all bytes written so far, in order. */
  function Total(f: Format): Bytes { f.out + f.buffer }

  /** From `f` to `g`, `bytes` have been added to what is put out or waits. */
  ghost predicate Wrote(f: Format, g: Format, row: bool, bytes: Bytes) {
    && g.binary == f.binary && g.signatureSent && g.rowMode == (f.rowMode || row)
    && Total(g) == Total(f) + bytes
  }

  lemma WroteTwice(f: Format, g: Format, h: Format, row1: bool, bytes1: Bytes, row2: bool, bytes2: Bytes)
    requires Wrote(f, g, row1, bytes1) && Wrote(g, h, row2, bytes2)
    ensures Wrote(f, h, row1 || row2, bytes1 + bytes2)
  {
    Regroup(Total(f), bytes1, bytes2, []);
  }

  lemma Appended(out: Bytes, buffer: Bytes, signed: Bytes, row: Bytes)
    ensures out + (buffer + signed + row) + [] == out + buffer + (signed + row)
    ensures out + (buffer + signed + row) == out + buffer + (signed + row)
  {
  }

  lemma NothingAdded(b: Bytes)
    ensures [] + b == b && b + [] == b
  {
  }

  lemma WroteRow(f: Format, row: seq<Field>)
    ensures Wrote(f, WriteOp(f, Row(row)), true, Signed(f) + RowBytes(f.binary, row))
  {
    Appended(f.out, f.buffer, Signed(f), RowBytes(f.binary, row));
  }

  lemma WroteBlock(f: Format, data: Bytes)
    requires data != [] ==> f.buffer == []
    ensures Wrote(f, WriteOp(f, Block(data)), false, [] + data)
  {
    NothingAdded(data);
    if data == [] {
      NothingAdded(f.out);
      NothingAdded(Total(f));
    } else {
      NothingAdded(f.out);
      NothingAdded(f.out + data);
    }
  }

  lemma WroteOne(f: Format, op: Op)
    requires op.Block? && op.data != [] ==> f.buffer == []
    ensures Wrote(f, WriteOp(f, op), op.Row?, (if op.Row? then Signed(f) else []) + OpBytes(f.binary, op))
  {
    match op
    case Row(row) => WroteRow(f, row);
    case Block(data) => WroteBlock(f, data);
  }

  lemma {:induction false} WroteAll(f: Format, ops: seq<Op>)
    requires f.signatureSent && NoneOvertaken(f, ops)
    ensures Wrote(f, WriteAll(f, ops), HasRow(ops), InOrder(f.binary, ops))
    decreases |ops|
  {
    if ops == [] {
      assert Total(f) + [] == Total(f);
    } else {
      var g := WriteOp(f, ops[0]);
      WroteOne(f, ops[0]);
      assert [] + OpBytes(f.binary, ops[0]) == OpBytes(f.binary, ops[0]);
      WroteAll(g, ops[1..]);
      WroteTwice(f, g, WriteAll(f, ops), ops[0].Row?, OpBytes(f.binary, ops[0]), HasRow(ops[1..]), InOrder(f.binary, ops[1..]));
    }
  }

  /** From the start on: the first call decides about the signature. */
  lemma WrittenAfter(binary: bool, ops: seq<Op>)
    requires ops != [] && NoneOvertaken(Fresh(binary), ops)
    ensures Wrote(Fresh(binary), WriteAll(Fresh(binary), ops), HasRow(ops), Opening(binary, ops) + InOrder(binary, ops))
  {
    var f := Fresh(binary);
    var g, first := WriteOp(f, ops[0]), OpBytes(binary, ops[0]);
    WroteOne(f, ops[0]);
    assert (if ops[0].Row? then Signed(f) else []) == Opening(binary, ops);
    WroteAll(g, ops[1..]);
    WroteTwice(f, g, WriteAll(f, ops), ops[0].Row?, Opening(binary, ops) + first, HasRow(ops[1..]), InOrder(binary, ops[1..]));
    Regroup(Opening(binary, ops), first, InOrder(binary, ops[1..]), []);
  }

  /** The bytes put out are those of the calls in order, with one signature and one trailer where they are due. */
  lemma OutputIsExpected(binary: bool, ops: seq<Op>)
    requires NoneOvertaken(Fresh(binary), ops)
    ensures Output(binary, ops) == Expected(binary, ops)
  {
    var f := WriteAll(Fresh(binary), ops);
    if ops == [] {
      assert binary ==> f.out + EndBytes(f) == SIGNATURE + [] + TRAILER;
    } else {
      WrittenAfter(binary, ops);
      assert Total(Fresh(binary)) == [];
      assert [] + (Opening(binary, ops) + InOrder(binary, ops)) == Opening(binary, ops) + InOrder(binary, ops);
      Regroup(f.out, f.buffer, Closing(binary, ops), []);
      assert EndBytes(f) == f.buffer + Closing(binary, ops);
    }
  }

  predicate OnlyRows(ops: seq<Op>) { ops != [] ==> ops[0].Row? && OnlyRows(ops[1..]) }

  predicate OnlyBlocks(ops: seq<Op>) { ops != [] ==> ops[0].Block? && OnlyBlocks(ops[1..]) }

  lemma {:induction false} RowsNeverOvertaken(f: Format, ops: seq<Op>)
    requires OnlyRows(ops) || (OnlyBlocks(ops) && f.buffer == [])
    ensures NoneOvertaken(f, ops)
    decreases |ops|
  {
    if ops != [] { RowsNeverOvertaken(WriteOp(f, ops[0]), ops[1..]); }
  }

  function Rows(rows: seq<seq<Field>>): seq<Op> {
    if rows == [] then [] else [Row(rows[0])] + Rows(rows[1..])
  }

  lemma {:induction false} RowsInOrder(binary: bool, rows: seq<seq<Field>>)
    ensures InOrder(binary, Rows(rows)) == if binary then RowsBinary(rows) else RowsText(rows)
    ensures OnlyRows(Rows(rows)) && (HasRow(Rows(rows)) <==> rows != [])
  {
    if rows != [] {
      RowsInOrder(binary, rows[1..]);
      assert Rows(rows)[1..] == Rows(rows[1..]);
    }
  }

  /** Copying rows: their encodings in order, between a signature and a trailer if binary. */
  lemma CopyOfRows(binary: bool, rows: seq<seq<Field>>)
    ensures Output(binary, Rows(rows)) == if binary then SIGNATURE + RowsBinary(rows) + TRAILER else RowsText(rows)
  {
    var ops := Rows(rows);
    RowsInOrder(binary, rows);
    RowsNeverOvertaken(Fresh(binary), ops);
    OutputIsExpected(binary, ops);
    RowsFramed(binary, rows);
    NothingAdded(InOrder(binary, ops));
  }

  lemma RowsFramed(binary: bool, rows: seq<seq<Field>>)
    ensures Opening(binary, Rows(rows)) == (if binary then SIGNATURE else [])
    ensures Closing(binary, Rows(rows)) == (if binary then TRAILER else [])
  {
    RowsInOrder(binary, rows);
  }

  /** What the server can read of it: the rows that were written, none lost, none twice, in their order. */
  lemma RowsArrive(rows: seq<seq<Field>>)
    ensures NoneEmpty(rows) ==> ParseLines(Lines(Output(false, Rows(rows)))) == rows
    ensures RowsFit(rows) ==>
              && SIGNATURE <= Output(true, Rows(rows))
              && ReadRows(Output(true, Rows(rows))[|SIGNATURE|..]) == Ok(rows)
  {
    CopyOfRows(false, rows);
    CopyOfRows(true, rows);
    if NoneEmpty(rows) { StreamReadsBack(rows); }
    if RowsFit(rows) {
      BinaryStreamReadsBack(rows);
      Regroup(SIGNATURE, RowsBinary(rows), TRAILER, []);
      assert (SIGNATURE + (RowsBinary(rows) + TRAILER))[|SIGNATURE|..] == RowsBinary(rows) + TRAILER;
    }
  }

  /** The buffer never keeps more than 32 kilobytes. */
  lemma {:induction false} BufferStaysSmall(f: Format, ops: seq<Op>)
    requires |f.buffer| <= 32 * 1024
    ensures |WriteAll(f, ops).buffer| <= 32 * 1024
    decreases |ops|
  {
    if ops != [] { BufferStaysSmall(WriteOp(f, ops[0]), ops[1..]); }
  }

  lemma {:induction false} RowsWait(f: Format, ops: seq<Op>)
    requires OnlyRows(ops) && f.signatureSent && |f.buffer| + |InOrder(f.binary, ops)| <= 32 * 1024
    ensures WriteAll(f, ops).out == f.out && WriteAll(f, ops).buffer == f.buffer + InOrder(f.binary, ops)
    decreases |ops|
  {
    if ops == [] {
      assert f.buffer + [] == f.buffer;
    } else {
      var row := RowBytes(f.binary, ops[0].row);
      assert f.buffer + [] + row == f.buffer + row;
      RowsWait(WriteOp(f, ops[0]), ops[1..]);
      Regroup(f.buffer, row, InOrder(f.binary, ops[1..]), []);
    }
  }

  /** Rows that make up no more than that all wait for the end of the copy. */
  lemma SmallRowsWait(binary: bool, ops: seq<Op>)
    requires OnlyRows(ops) && |Opening(binary, ops) + InOrder(binary, ops)| <= 32 * 1024
    ensures WriteAll(Fresh(binary), ops).out == []
  {
    if ops != [] {
      var f, row := Fresh(binary), RowBytes(binary, ops[0].row);
      assert f.buffer + Signed(f) + row == Opening(binary, ops) + row;
      RowsWait(WriteOp(f, ops[0]), ops[1..]);
    }
  }

  /** Mixing the two calls is another matter: a block is sent before the row that waits in the buffer. */
  lemma BlockOvertakesRow(block: Bytes)
    requires block != []
    ensures Output(false, [Row([]), Block(block)]) == block + [NEWLINE]
    ensures !NoneOvertaken(Fresh(false), [Row([]), Block(block)])
    ensures Expected(false, [Row([]), Block(block)]) == [NEWLINE] + block
  {
    var ops: seq<Op> := [Row([]), Block(block)];
    var last: seq<Op> := [Block(block)];
    assert ops[1..] == last && last[1..] == [];
    assert RowText([]) == [NEWLINE];
    var f := Format(false, [NEWLINE], true, true, []);
    assert [] + [] + [NEWLINE] == [NEWLINE];
    assert WriteOp(Fresh(false), ops[0]) == f;
    assert WriteAll(f, last) == WriteAll(WriteOp(f, last[0]), []) == WriteOp(f, last[0]);
    assert [] + block == block;
    assert WriteAll(Fresh(false), ops) == Format(false, [NEWLINE], true, true, block);
    ExpectedOfTwo(block);
  }

  lemma ExpectedOfTwo(block: Bytes)
    ensures Expected(false, [Row([]), Block(block)]) == [NEWLINE] + block
  {
    var ops: seq<Op> := [Row([]), Block(block)];
    var last: seq<Op> := [Block(block)];
    assert ops[1..] == last && last[1..] == [];
    assert RowText([]) == [NEWLINE];
    assert InOrder(false, last) == block + InOrder(false, []);
    assert InOrder(false, ops) == [NEWLINE] + InOrder(false, last);
  }

  // ---------- the objects ----------

  /** Data in pieces of at most MAX_BUFFER_SIZE bytes. */
  function Split(data: Bytes): seq<Bytes>
    decreases |data|
  {
    if |data| <= MAX_BUFFER_SIZE then [data] else [data[..MAX_BUFFER_SIZE]] + Split(data[MAX_BUFFER_SIZE..])
  }

  /** A chunk fit for libpq. */
  predicate GoodChunk(chunk: Bytes) { 0 < |chunk| <= 128 * 1024 }

  ghost predicate GoodChunks(chunks: seq<Bytes>) { chunks != [] ==> GoodChunk(chunks[0]) && GoodChunks(chunks[1..]) }

  lemma {:induction false} SplitGood(data: Bytes)
    requires data != []
    ensures GoodChunks(Split(data)) && Concat(Split(data)) == data
    decreases |data|
  {
    if |data| > MAX_BUFFER_SIZE {
      SplitGood(data[MAX_BUFFER_SIZE..]);
      assert Split(data)[1..] == Split(data[MAX_BUFFER_SIZE..]);
      assert data[..MAX_BUFFER_SIZE] + data[MAX_BUFFER_SIZE..] == data;
    } else {
      assert Concat([data]) == data + Concat<Byte>([]);
    }
  }

  /** Every chunk but the last is as long as it may be. */
  lemma {:induction false} SplitFull(data: Bytes, i: nat)
    requires i < |Split(data)| - 1
    ensures |Split(data)[i]| == 128 * 1024
    decreases i
  {
    if i > 0 { SplitFull(data[MAX_BUFFER_SIZE..], i - 1); }
  }

  lemma {:induction false} GoodChunksAppend(a: seq<Bytes>, b: seq<Bytes>)
    requires GoodChunks(a) && GoodChunks(b)
    ensures GoodChunks(a + b)
  {
    if a == [] {
      assert a + b == b;
    } else {
      assert (a + b)[1..] == a[1..] + b;
      GoodChunksAppend(a[1..], b);
    }
  }

  lemma SplitFrom(data: Bytes, i: nat)
    requires i < |data|
    ensures Split(data[i..]) == if |data| - i <= MAX_BUFFER_SIZE then [data[i..]]
                                else [data[i..i + MAX_BUFFER_SIZE]] + Split(data[i + MAX_BUFFER_SIZE..])
  {
    if |data| - i > MAX_BUFFER_SIZE {
      assert data[i..][..MAX_BUFFER_SIZE] == data[i..i + MAX_BUFFER_SIZE];
      assert data[i..][MAX_BUFFER_SIZE..] == data[i + MAX_BUFFER_SIZE..];
    }
  }

  /** The writer to the connection: `sent` are the chunks given to libpq, `end` how the copy was ended. */
  class LibpqWriter {
    var sent: seq<Bytes>
    var end: Option<Option<Bytes>>

    constructor ()
      ensures sent == [] && end.None?
    {
      sent, end := [], None;
    }

    method Write(data: Bytes)
      requires data != []
      modifies this`sent
      ensures sent == old(sent) + Split(data)
    {
      if |data| <= MAX_BUFFER_SIZE {
        sent := sent + [data];
      } else {
        var i := 0;
        assert data[0..] == data;
        ghost var before := sent;
        ghost var rest := Split(data);
        while i < |data|
          invariant i <= |data|
          invariant rest == if i < |data| then Split(data[i..]) else []
          invariant sent + rest == before + Split(data)
        {
          var j := Min(i + MAX_BUFFER_SIZE, |data|);
          SplitFrom(data, i);
          rest := rest[1..];
          assert data[i..j] == Split(data[i..])[0];
          Regroup(sent, [data[i..j]], rest, []);
          sent := sent + [data[i..j]];
          i := j;
        }
        assert sent + [] == sent;
      }
    }

    /** With an exception, the server is told that the copy failed. */
    method Finish(exc: Option<Bytes>)
      modifies this`end
      ensures end == Some(exc)
    {
      end := Some(exc);
    }
  }

  /** A copy in progress: the formatter's fields, and the writer. */
  class Copy {
    const binary: bool
    const writer: LibpqWriter
    var buffer: Bytes
    var rowMode: bool
    var signatureSent: bool
    var finished: bool

    constructor (binary: bool)
      ensures this.binary == binary && fresh(writer)
      ensures View() == Fresh(binary) && GoodChunks(writer.sent) && writer.end.None? && !finished
    {
      this.binary := binary;
      writer := new LibpqWriter();
      buffer, rowMode, signatureSent, finished := [], false, false, false;
    }

    /** The formatter, with what has reached the server as its output. */
    ghost function View(): Format
      reads this, writer
    {
      Format(binary, buffer, rowMode, signatureSent, Concat(writer.sent))
    }

    /** What stands in the buffer before the next row. */
    function RowStart(): Bytes
      reads this
    {
      if binary && !signatureSent then buffer + SIGNATURE else buffer
    }

    /** What the formatter gives is sent, if there is any. */
    method Send(data: Bytes)
      requires GoodChunks(writer.sent)
      modifies writer`sent
      ensures GoodChunks(writer.sent) && Concat(writer.sent) == Concat(old(writer.sent)) + data
    {
      if data != [] {
        SplitGood(data);
        GoodChunksAppend(writer.sent, Split(data));
        ConcatAppend(writer.sent, Split(data));
        writer.Write(data);
      }
    }

    method Write(data: Bytes)
      requires GoodChunks(writer.sent)
      modifies this`signatureSent, writer`sent
      ensures GoodChunks(writer.sent) && View() == WriteOp(old(View()), Block(data))
    {
      signatureSent := true;
      Send(data);
    }

    /** On an error the row is not sent, but what was formatted of it stays in the buffer. */
    method WriteRow(row: seq<Field>) returns (ok: bool)
      requires GoodChunks(writer.sent)
      modifies this, writer`sent
      ensures GoodChunks(writer.sent) && finished == old(finished)
      ensures ok <==> !binary || RowFits(row)
      ensures ok ==> View() == WriteOp(old(View()), Row(row))
      ensures !ok ==> writer.sent == old(writer.sent) && buffer == old(RowStart()) + RowBinary(row)
    {
      assert buffer + Signed(View()) == RowStart();
      ok := FormatRow(row);
      if ok {
        FlushIfFull();
      }
    }

    /** The row goes to the end of the buffer, after the signature if that has not gone yet. */
    method FormatRow(row: seq<Field>) returns (ok: bool)
      modifies this
      ensures ok <==> !binary || RowFits(row)
      ensures rowMode && signatureSent && finished == old(finished)
      ensures buffer == old(RowStart()) + RowBytes(binary, row)
    {
      rowMode := true;
      ok := true;
      if binary {
        if !signatureSent {
          buffer := buffer + SIGNATURE;
        }
        buffer, ok := FormatRowBinary(row, buffer);
      } else {
        buffer := FormatRowText(row, buffer);
      }
      signatureSent := true;
    }

    method FlushIfFull()
      requires GoodChunks(writer.sent)
      modifies this`buffer, writer`sent
      ensures GoodChunks(writer.sent)
      ensures |old(buffer)| > BUFFER_SIZE ==> buffer == [] && Concat(writer.sent) == Concat(old(writer.sent)) + old(buffer)
      ensures |old(buffer)| <= BUFFER_SIZE ==> buffer == old(buffer) && writer.sent == old(writer.sent)
    {
      if |buffer| > BUFFER_SIZE {
        var data := buffer;
        buffer := [];
        Send(data);
      }
    }

    /** The buffer is flushed even after an exception; the writer then tells the server to forget all. */
    method Finish(exc: Option<Bytes>)
      requires GoodChunks(writer.sent)
      modifies this, writer
      ensures GoodChunks(writer.sent) && finished && writer.end == Some(exc)
      ensures Concat(writer.sent) == Concat(old(writer.sent)) + EndBytes(old(View()))
    {
      if binary {
        if !signatureSent {
          buffer := buffer + SIGNATURE;
          buffer := buffer + TRAILER;
        } else if rowMode {
          buffer := buffer + TRAILER;
        }
      }
      var data := buffer;
      buffer := [];
      Send(data);
      writer.Finish(exc);
      finished := true;
    }
  }

  lemma {:induction false} WriteAllSnoc(f: Format, ops: seq<Op>, i: nat)
    requires i < |ops|
    ensures WriteAll(f, ops[..i + 1]) == WriteOp(WriteAll(f, ops[..i]), ops[i])
    decreases i
  {
    if i > 0 {
      assert ops[..i + 1][1..] == ops[1..][..i] && ops[..i][1..] == ops[1..][..i - 1];
      WriteAllSnoc(WriteOp(f, ops[0]), ops[1..], i - 1);
    }
  }

  /** A whole copy block: what the server gets is the output, in chunks that libpq can take. */
  method CopyBlock(binary: bool, ops: seq<Op>) returns (sent: seq<Bytes>)
    requires forall op :: op in ops && op.Row? && binary ==> RowFits(op.row)
    ensures GoodChunks(sent) && Concat(sent) == Output(binary, ops)
    ensures NoneOvertaken(Fresh(binary), ops) ==> Concat(sent) == Expected(binary, ops)
  {
    var copy := new Copy(binary);
    for i := 0 to |ops|
      invariant GoodChunks(copy.writer.sent) && copy.binary == binary
      invariant copy.View() == WriteAll(Fresh(binary), ops[..i])
      invariant fresh(copy) && fresh(copy.writer)
    {
      WriteAllSnoc(Fresh(binary), ops, i);
      match ops[i] {
        case Row(row) =>
          assert ops[i] in ops;
          var ok := copy.WriteRow(row);
          assert ok;
        case Block(data) => copy.Write(data);
      }
    }
    assert ops[..|ops|] == ops;
    copy.Finish(None);
    sent := copy.writer.sent;
    if NoneOvertaken(Fresh(binary), ops) { OutputIsExpected(binary, ops); }
  }
}
