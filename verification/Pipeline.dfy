/**
 Pipeline mode: the i-th list of results must be processed with the i-th entry of the queue. Commands
 are sent while results are read. The server answers commands in the order it gets them. libpq hands
 out an answer only when the whole of it has arrived: it is not busy between a result and the NULL
 after it.
 */
module Pipeline {
  import opened Util

  datatype Status = SUCCESS | FATAL_ERROR | PIPELINE_ABORTED | PIPELINE_SYNC

  datatype PGresult = PGresult(status: Status, value: int)

  /** A query succeeds with a value or fails, unless the pipeline is aborted when the server reaches it. */
  datatype Command = Query(succeeds: bool, value: int) | Sync

  /** What waits for a result: the connection itself, or a cursor, perhaps with a cached statement to validate. */
  datatype Entry = ForConnection | ForCursor(cursor: nat, prepared: Option<nat>)

  // ---------- the server ----------

  /** Is the pipeline aborted after these commands? */
  function Aborted(cs: seq<Command>): bool {
    cs != [] &&
    match cs[|cs| - 1]
    case Sync => false
    case Query(succeeds, _) => !succeeds || Aborted(cs[..|cs| - 1])
  }

  function Answer(before: seq<Command>, c: Command): PGresult {
    match c
    case Sync => PGresult(PIPELINE_SYNC, 0)
    case Query(succeeds, value) =>
      if Aborted(before) then PGresult(PIPELINE_ABORTED, 0)
      else if succeeds then PGresult(SUCCESS, value)
      else PGresult(FATAL_ERROR, value)
  }

  /** The answers to a list of commands, one each. */
  function Replies(cs: seq<Command>): (r: seq<PGresult>)
    ensures |r| == |cs|
    ensures forall i :: 0 <= i < |cs| ==> r[i] == Answer(cs[..i], cs[i])
  {
    if cs == [] then [] else
    var n := |cs| - 1;
    var r := Replies(cs[..n]) + [Answer(cs[..n], cs[n])];
    assert forall i :: 0 <= i < n ==> cs[..n][..i] == cs[..i];
    r
  }

  lemma RepliesPrefix(cs: seq<Command>, more: seq<Command>)
    ensures Replies(cs + more)[..|cs|] == Replies(cs)
  {
    forall i | 0 <= i < |cs| ensures Replies(cs + more)[i] == Replies(cs)[i] {
      assert (cs + more)[..i] == cs[..i];
    }
  }

  /** A failed query aborts all that follows it up to the next sync, and nothing after that. */
  lemma {:induction false} AbortedIff(cs: seq<Command>)
    ensures Aborted(cs) <==>
            exists k :: 0 <= k < |cs| && cs[k].Query? && !cs[k].succeeds && forall j :: k < j < |cs| ==> cs[j].Query?
  {
    if cs != [] {
      var n := |cs| - 1;
      AbortedIff(cs[..n]);
      if cs[n].Query? && cs[n].succeeds {
        if k :| 0 <= k < n && cs[..n][k].Query? && !cs[..n][k].succeeds && forall j :: k < j < n ==> cs[..n][j].Query? {
          assert cs[k].Query? && !cs[k].succeeds;
          forall j | k < j < |cs| ensures cs[j].Query? {
            assert j < n ==> cs[..n][j] == cs[j];
          }
        }
        if k :| 0 <= k < |cs| && cs[k].Query? && !cs[k].succeeds && forall j :: k < j < |cs| ==> cs[j].Query? {
          assert k < n && cs[..n][k] == cs[k];
        }
      }
    }
  }

  // ---------- the stream of results ----------

  datatype Token = Res(result: PGresult) | Null

  /** What get_result returns for one answer: a sync is not followed by NULL. */
  function Wire(r: PGresult): seq<Token> {
    if r.status == PIPELINE_SYNC then [Res(r)] else [Res(r), Null]
  }

  function Stream(rs: seq<PGresult>): seq<Token> {
    if rs == [] then [] else Wire(rs[0]) + Stream(rs[1..])
  }

  lemma {:induction false} StreamAppend(a: seq<PGresult>, b: seq<PGresult>)
    ensures Stream(a + b) == Stream(a) + Stream(b)
  {
    if a == [] {
      assert a + b == b;
    } else {
      assert (a + b)[1..] == a[1..] + b;
      StreamAppend(a[1..], b);
    }
  }

  lemma StreamSplit(rs: seq<PGresult>, i: nat, j: nat, k: nat)
    requires i <= j <= k <= |rs|
    ensures Stream(rs[i..k]) == Stream(rs[i..j]) + Stream(rs[j..k])
  {
    assert rs[i..k] == rs[i..j] + rs[j..k];
    StreamAppend(rs[i..j], rs[j..k]);
  }

  function Lists(rs: seq<PGresult>): (ls: seq<seq<PGresult>>)
    ensures |ls| == |rs| && forall i :: 0 <= i < |rs| ==> ls[i] == [rs[i]]
  {
    seq(|rs|, i requires 0 <= i < |rs| => [rs[i]])
  }

  lemma ListsSnoc(rs: seq<PGresult>, r: PGresult)
    ensures Lists(rs + [r]) == Lists(rs) + [[r]]
  {
  }

  lemma StreamFirst(rs: seq<PGresult>)
    requires rs != []
    ensures Stream(rs) != [] && Stream(rs)[0] == Res(rs[0])
    ensures Stream(rs)[1..] == (if rs[0].status == PIPELINE_SYNC then [] else [Null]) + Stream(rs[1..])
  {
    var first, rest := Wire(rs[0]), Stream(rs[1..]);
    assert Stream(rs) == first + rest;
    assert (first + rest)[1..] == first[1..] + rest;
    assert first[1..] == if rs[0].status == PIPELINE_SYNC then [] else [Null];
  }

  lemma ListsAt(rs: seq<PGresult>, a: nat, b: nat, k: nat)
    requires a + k < b <= |rs|
    ensures |Lists(rs[a..b])| == b - a && Lists(rs[a..b])[k] == [rs[a + k]]
  {
  }

  lemma ShiftOne<T>(gone: seq<T>, rest: seq<T>)
    requires rest != []
    ensures gone + rest == gone + [rest[0]] + rest[1..]
  {
  }

  lemma ListsAppend(rs: seq<PGresult>, a: nat, b: nat, c: nat)
    requires a <= b <= c <= |rs|
    ensures Lists(rs[a..b]) + Lists(rs[b..c]) == Lists(rs[a..c])
  {
  }

  lemma SlicesKept(sent: seq<Command>, c: Command, from: nat, to: nat, prefix: nat)
    requires from <= to <= |sent| && prefix <= |sent|
    ensures Replies(sent + [c])[from..to] == Replies(sent)[from..to]
    ensures Replies(sent + [c])[..prefix] == Replies(sent)[..prefix]
  {
    RepliesPrefix(sent, [c]);
    SliceOfPrefix(Replies(sent + [c]), |sent|, from, to);
    SliceOfPrefix(Replies(sent + [c]), |sent|, 0, prefix);
  }

  lemma SliceOfPrefix<T>(s: seq<T>, n: nat, from: nat, to: nat)
    requires from <= to <= n <= |s|
    ensures s[..n][from..to] == s[from..to]
  {
  }

  lemma WholeSlice<T>(s: seq<T>, n: nat)
    requires n == |s|
    ensures s[..n] == s
  {
  }

  /** The connection: commands sent, and the part of the answers that has arrived and was not taken. */
  class PGconn {
    var sent: seq<Command>
    var answered: nat        // how many answers have arrived
    var arrived: seq<Token>
    ghost var taken: nat     // how many answers were taken

    ghost predicate Valid()
      reads this
    {
      taken <= answered <= |sent| && arrived == Stream(Replies(sent)[taken..answered])
    }

    constructor ()
      ensures Valid() && sent == [] && taken == 0 && answered == 0
    {
      sent, answered, arrived, taken := [], 0, [], 0;
    }

    method Send(c: Command)
      requires Valid()
      modifies this`sent
      ensures Valid() && sent == old(sent) + [c]
      ensures Replies(sent)[..|old(sent)|] == Replies(old(sent))
    {
      RepliesPrefix(sent, [c]);
      PrefixSlice(Replies(sent), Replies(sent + [c]), taken, answered);
      sent := sent + [c];
    }

    /** consume_input: up to `n` more answers arrive. */
    method ConsumeInput(n: nat)
      requires Valid()
      modifies this`answered, this`arrived
      ensures Valid() && answered == Min(old(answered) + n, |sent|)
    {
      var upTo := Min(answered + n, |sent|);
      StreamSplit(Replies(sent), taken, answered, upTo);
      arrived := arrived + Stream(Replies(sent)[answered..upTo]);
      answered := upTo;
    }

    /** is_busy: something was sent that has not been answered, and nothing is left to take. */
    predicate IsBusy()
      reads this
    {
      arrived == [] && answered < |sent|
    }

    method GetResult() returns (r: Option<PGresult>)
      modifies this`arrived
      ensures old(arrived) == [] ==> r.None? && arrived == []
      ensures old(arrived) != [] ==> arrived == old(arrived)[1..]
      ensures old(arrived) != [] ==> r == if old(arrived)[0].Res? then Some(old(arrived)[0].result) else None
    {
      if arrived == [] { return None; }
      r := if arrived[0].Res? then Some(arrived[0].result) else None;
      arrived := arrived[1..];
    }

    /** The reading half of _pipeline_communicate: every answer that has arrived, as a list of results. */
    method Drain() returns (results: seq<seq<PGresult>>)
      requires Valid()
      modifies this`arrived, this`taken
      ensures Valid() && taken == answered
      ensures results == Lists(Replies(sent)[old(taken)..answered])
    {
      ghost var all := Replies(sent)[taken..answered];
      ghost var gone: seq<PGresult>, rest := [], all;
      results := [];
      var res := [];
      while !IsBusy()
        invariant all == gone + rest && results == Lists(gone)
        invariant res == [] ==> arrived == Stream(rest)
        invariant res != [] ==> rest != [] && res == [rest[0]] && rest[0].status != PIPELINE_SYNC
                                && arrived == [Null] + Stream(rest[1..])
        decreases |arrived|, |rest|
      {
        if res == [] && rest != [] { StreamFirst(rest); }
        var r := GetResult();
        if r.None? {
          if res == [] { break; }
          ListsSnoc(gone, rest[0]);
          ShiftOne(gone, rest);
          results := results + [res];
          res := [];
          gone, rest := gone + [rest[0]], rest[1..];
        } else if r.value.status == PIPELINE_SYNC {
          ListsSnoc(gone, rest[0]);
          ShiftOne(gone, rest);
          results := results + [[r.value]];
          gone, rest := gone + [rest[0]], rest[1..];
        } else {
          res := res + [r.value];
        }
      }
      assert rest == [] && all == gone;
      taken := answered;
    }

    /** _fetch_many: wait for the next answer and take it; nothing if every command was answered. */
    method FetchMany() returns (results: seq<PGresult>)
      requires Valid()
      modifies this`arrived, this`taken, this`answered
      ensures Valid()
      ensures old(taken) == |sent| ==> results == [] && taken == old(taken)
      ensures old(taken) < |sent| ==> results == [Replies(sent)[old(taken)]] && taken == old(taken) + 1
    {
      if IsBusy() {
        ConsumeInput(1);
      }
      ghost var R := Replies(sent);
      ghost var rest := R[taken..answered];
      assert rest != [] ==> rest[1..] == R[taken + 1..answered];
      results := [];
      var r := GetResult();
      if r.None? { return; }
      results := [r.value];
      taken := taken + 1;
      if r.value.status != PIPELINE_SYNC {
        var _ := GetResult();
      }
    }
  }

  // ---------- what is done with the results ----------

  datatype Error = ServerError(value: int) | PipelineAborted | UnexpectedStatus

  /** The cursors' results, and the results the statement cache was told about. */
  datatype Effects = Effects(cursors: map<nat, seq<PGresult>>, validated: seq<(nat, seq<PGresult>)>)

  function Raised(r: PGresult, forCursor: bool): Option<Error> {
    match r.status
    case FATAL_ERROR => Some(ServerError(r.value))
    case PIPELINE_ABORTED => Some(PipelineAborted)
    case PIPELINE_SYNC => if forCursor then Some(UnexpectedStatus) else None
    case SUCCESS => None
  }

  /** _process_results on the single result of a command. */
  function Handled(e: Effects, entry: Entry, r: PGresult): (Effects, Option<Error>) {
    match entry
    case ForConnection => (e, Raised(r, false))
    case ForCursor(c, prepared) =>
      var e1 := if prepared.Some? then e.(validated := e.validated + [(prepared.value, [r])]) else e;
      var x := Raised(r, true);
      (if x.None? then e1.(cursors := e.cursors[c := [r]]) else e1, x)
  }

  function FirstError(a: Option<Error>, b: Option<Error>): Option<Error> {
    if a.Some? then a else b
  }

  /** Results handled one after the other: an error does not stop the loop, the first one is kept. */
  function HandledAll(e: Effects, entries: seq<Entry>, rs: seq<PGresult>): (Effects, Option<Error>)
    requires |entries| == |rs|
  {
    if rs == [] then (e, None) else
    var n := |rs| - 1;
    var (e1, x1) := HandledAll(e, entries[..n], rs[..n]);
    var (e2, x2) := Handled(e1, entries[n], rs[n]);
    (e2, FirstError(x1, x2))
  }

  lemma HandledSnoc(e: Effects, entries: seq<Entry>, rs: seq<PGresult>, entry: Entry, r: PGresult)
    requires |entries| == |rs|
    ensures var (e1, x1) := HandledAll(e, entries, rs);
            var (e2, x2) := Handled(e1, entry, r);
            HandledAll(e, entries + [entry], rs + [r]) == (e2, FirstError(x1, x2))
  {
    assert (entries + [entry])[..|rs|] == entries && (rs + [r])[..|rs|] == rs;
  }

  lemma HandledOneMore(e: Effects, entries: seq<Entry>, rs: seq<PGresult>, from: nat, i: nat)
    requires from <= i < |entries| && i < |rs|
    ensures var (e1, x1) := HandledAll(e, entries[from..i], rs[from..i]);
            var (e2, x2) := Handled(e1, entries[i], rs[i]);
            HandledAll(e, entries[from..i + 1], rs[from..i + 1]) == (e2, FirstError(x1, x2))
  {
    assert entries[from..i + 1] == entries[from..i] + [entries[i]];
    assert rs[from..i + 1] == rs[from..i] + [rs[i]];
    HandledSnoc(e, entries[from..i], rs[from..i], entries[i], rs[i]);
  }

  lemma {:induction false} HandledAllAppend(e: Effects, entries: seq<Entry>, rs: seq<PGresult>, entries2: seq<Entry>, rs2: seq<PGresult>)
    requires |entries| == |rs| && |entries2| == |rs2|
    ensures var (e1, x1) := HandledAll(e, entries, rs);
            var (e2, x2) := HandledAll(e1, entries2, rs2);
            HandledAll(e, entries + entries2, rs + rs2) == (e2, FirstError(x1, x2))
  {
    if rs2 == [] {
      assert entries + entries2 == entries && rs + rs2 == rs;
    } else {
      var n := |rs2| - 1;
      HandledAllAppend(e, entries, rs, entries2[..n], rs2[..n]);
      var m := |rs| + n;
      assert (entries + entries2)[..m] == entries + entries2[..n] && (rs + rs2)[..m] == rs + rs2[..n];
    }
  }

  predicate Fills(entry: Entry, r: PGresult, c: nat) {
    entry.ForCursor? && entry.cursor == c && r.status == SUCCESS
  }

  /** The last answer a cursor could keep. */
  function LastOwn(entries: seq<Entry>, rs: seq<PGresult>, c: nat): (r: Option<nat>)
    requires |entries| == |rs|
    ensures r.Some? ==> r.value < |rs| && Fills(entries[r.value], rs[r.value], c)
    ensures forall i :: (if r.Some? then r.value else -1) < i < |rs| ==> !Fills(entries[i], rs[i], c)
  {
    if rs == [] then None else
    var n := |rs| - 1;
    if Fills(entries[n], rs[n], c) then Some(n) else LastOwn(entries[..n], rs[..n], c)
  }

  /** The first command that did not succeed. */
  function FirstFailure(entries: seq<Entry>, rs: seq<PGresult>): (r: Option<nat>)
    requires |entries| == |rs|
    ensures r.Some? ==> r.value < |rs| && Raised(rs[r.value], entries[r.value].ForCursor?).Some?
    ensures forall i :: 0 <= i < (if r.Some? then r.value else |rs|) ==> Raised(rs[i], entries[i].ForCursor?).None?
  {
    if rs == [] then None else
    var n := |rs| - 1;
    var r := FirstFailure(entries[..n], rs[..n]);
    if r.Some? then r
    else if Raised(rs[n], entries[n].ForCursor?).Some? then Some(n)
    else None
  }

  /**
   Each cursor ends with the answer to its own last successful query, whatever failed or was
   aborted before it; the error raised is that of the first command that did not succeed.
   */
  lemma {:induction false} CursorsGetTheirOwn(e: Effects, entries: seq<Entry>, rs: seq<PGresult>, c: nat)
    requires |entries| == |rs|
    ensures var (f, x) := HandledAll(e, entries, rs);
            var own := LastOwn(entries, rs, c);
            var failed := FirstFailure(entries, rs);
            && (own.Some? ==> c in f.cursors && f.cursors[c] == [rs[own.value]])
            && (own.None? ==> (c in f.cursors <==> c in e.cursors) && (c in f.cursors ==> f.cursors[c] == e.cursors[c]))
            && x == if failed.Some? then Raised(rs[failed.value], entries[failed.value].ForCursor?) else None
  {
    if rs != [] {
      var n := |rs| - 1;
      CursorsGetTheirOwn(e, entries[..n], rs[..n], c);
    }
  }

  // ---------- the pipeline object ----------

  /** What the socket is ready for in one turn of the loop, and how many answers arrive with it. */
  datatype Ready = Ready(read: bool, write: bool, answers: nat)

  class BasePipeline {
    const conn: PGconn
    var commandQueue: seq<Command>
    var resultQueue: seq<Entry>
    var effects: Effects
    ghost var entries: seq<Entry>    // every entry ever queued
    ghost var done: nat              // how many were processed

    /** Every command ever queued. */
    ghost function Commands(): seq<Command>
      reads this, conn
    {
      conn.sent + commandQueue
    }

    /** The queue of pending results starts with the entry whose answer is the next to be taken. */
    ghost predicate Valid()
      reads this, conn
    {
      && conn.Valid()
      && |entries| == |Commands()| && done <= |entries|
      && resultQueue == entries[done..]
      && done == conn.taken
      && effects == HandledAll(Effects(map[], []), entries[..done], Replies(conn.sent)[..done]).0
    }

    constructor ()
      ensures Valid() && fresh(conn) && entries == [] && commandQueue == []
    {
      conn := new PGconn();
      commandQueue, resultQueue, entries, done := [], [], [], 0;
      effects := Effects(map[], []);
    }

    /** Queue a command and what waits for its answer: _exec_command, _send_prepare, _send_query_prepared... */
    method Enqueue(c: Command, entry: Entry)
      requires Valid()
      modifies this`commandQueue, this`resultQueue, this`entries
      ensures Valid() && entries == old(entries) + [entry] && Commands() == old(Commands()) + [c]
    {
      commandQueue := commandQueue + [c];
      resultQueue := resultQueue + [entry];
      entries := entries + [entry];
      assert entries[..done] == old(entries)[..done];
    }

    method EnqueueSync()
      requires Valid()
      modifies this`commandQueue, this`resultQueue, this`entries
      ensures Valid() && entries == old(entries) + [ForConnection] && Commands() == old(Commands()) + [Sync]
    {
      Enqueue(Sync, ForConnection);
    }

    /** _process_results */
    method ProcessResults(queued: Entry, results: seq<PGresult>) returns (x: Option<Error>)
      requires |results| == 1
      modifies this`effects
      ensures (effects, x) == Handled(old(effects), queued, results[0])
    {
      match queued
      case ForConnection => x := Raised(results[0], false);
      case ForCursor(c, prepared) =>
        if prepared.Some? {
          effects := effects.(validated := effects.validated + [(prepared.value, results)]);
        }
        assert results == [results[0]];
        x := Raised(results[0], true);
        if x.None? {
          effects := effects.(cursors := effects.cursors[c := results]);
        }
    }

    /** One result list against one queued entry. */
    method ProcessNext(results: seq<PGresult>, soFar: Option<Error>) returns (x: Option<Error>)
      requires resultQueue != [] && |results| == 1
      requires |entries| == |Commands()| && done < |conn.sent| && resultQueue == entries[done..]
      requires effects == HandledAll(Effects(map[], []), entries[..done], Replies(conn.sent)[..done]).0
      requires results == [Replies(conn.sent)[done]]
      modifies this`resultQueue, this`effects, this`done
      ensures done == old(done) + 1 && resultQueue == entries[done..]
      ensures effects == HandledAll(Effects(map[], []), entries[..done], Replies(conn.sent)[..done]).0
      ensures effects == Handled(old(effects), entries[old(done)], results[0]).0
      ensures x == FirstError(soFar, Handled(old(effects), entries[old(done)], results[0]).1)
    {
      var queued := resultQueue[0];
      resultQueue := resultQueue[1..];
      var y := ProcessResults(queued, results);
      x := if soFar.None? then y else soFar;
      done := done + 1;
      assert entries[..done][..done - 1] == entries[..done - 1];
      assert Replies(conn.sent)[..done][..done - 1] == Replies(conn.sent)[..done - 1];
    }

    /** `results` are the answers taken since the last one processed; `before` and `all` are the commands sent and queued at the start. */
    ghost predicate Communicating(results: seq<seq<PGresult>>, before: seq<Command>, all: seq<Command>)
      reads this, conn
    {
      && conn.Valid() && Commands() == all
      && |before| <= |conn.sent| && Replies(conn.sent)[..|before|] == Replies(before)
      && done <= conn.taken && results == Lists(Replies(conn.sent)[done..conn.taken])
    }

    method ReadTurn(answers: nat, results: seq<seq<PGresult>>, ghost before: seq<Command>, ghost all: seq<Command>)
      returns (longer: seq<seq<PGresult>>)
      requires Communicating(results, before, all)
      modifies conn`answered, conn`arrived, conn`taken
      ensures Communicating(longer, before, all)
    {
      conn.ConsumeInput(answers);
      ghost var from := conn.taken;
      var more := conn.Drain();
      ListsAppend(Replies(conn.sent), done, from, conn.taken);
      longer := results + more;
    }

    method SendTurn(ghost results: seq<seq<PGresult>>, ghost before: seq<Command>, ghost all: seq<Command>)
      requires Communicating(results, before, all) && commandQueue != []
      modifies conn`sent, this`commandQueue
      ensures Communicating(results, before, all) && commandQueue == old(commandQueue)[1..]
    {
      var c := commandQueue[0];
      commandQueue := commandQueue[1..];
      SlicesKept(conn.sent, c, done, conn.taken, |before|);
      conn.Send(c);
    }

    /** _pipeline_communicate: read what arrives and send what is queued, in whatever order the socket allows. */
    method PipelineCommunicate(schedule: seq<Ready>) returns (results: seq<seq<PGresult>>)
      requires Valid()
      modifies conn, this`commandQueue
      ensures commandQueue == [] && Communicating(results, old(conn.sent), old(Commands()))
    {
      results := [];
      var turn := 0;
      while true
        invariant 0 <= turn <= |schedule|
        invariant Communicating(results, old(conn.sent), old(Commands()))
        decreases |commandQueue|, |schedule| - turn
      {
        // When the given turns are over the socket is writable.
        var ready := if turn < |schedule| then schedule[turn] else Ready(false, true, 0);
        turn := Min(turn + 1, |schedule|);
        if ready.read {
          results := ReadTurn(ready.answers, results, old(conn.sent), old(Commands()));
        }
        if ready.write {
          if commandQueue == [] { break; }
          SendTurn(results, old(conn.sent), old(Commands()));
        }
      }
    }

    /** _communicate_gen */
    method CommunicateGen(schedule: seq<Ready>) returns (x: Option<Error>)
      requires Valid()
      modifies conn, this`commandQueue, this`resultQueue, this`effects, this`done
      ensures Valid() && commandQueue == [] && Commands() == old(Commands()) && old(done) <= done
      ensures (effects, x) == HandledAll(old(effects), entries[old(done)..done], Replies(conn.sent)[old(done)..done])
    {
      ghost var before := conn.sent;
      SliceOfPrefix(Replies(before), |before|, 0, done);
      var fetched := PipelineCommunicate(schedule);
      SliceOfPrefix(Replies(conn.sent), |before|, 0, done);
      x := HandleFetched(fetched);
    }

    /** The loop over what was fetched. */
    method HandleFetched(fetched: seq<seq<PGresult>>) returns (x: Option<Error>)
      requires done + |fetched| <= |conn.sent| && |entries| == |Commands()| && resultQueue == entries[done..]
      requires effects == HandledAll(Effects(map[], []), entries[..done], Replies(conn.sent)[..done]).0
      requires fetched == Lists(Replies(conn.sent)[done..done + |fetched|])
      modifies this`resultQueue, this`effects, this`done
      ensures done == old(done) + |fetched| && resultQueue == entries[done..]
      ensures effects == HandledAll(Effects(map[], []), entries[..done], Replies(conn.sent)[..done]).0
      ensures (effects, x) == HandledAll(old(effects), entries[old(done)..done], Replies(conn.sent)[old(done)..done])
    {
      ghost var from, replies := done, Replies(conn.sent);
      x := None;
      for k := 0 to |fetched|
        invariant done == from + k && resultQueue == entries[done..]
        invariant effects == HandledAll(Effects(map[], []), entries[..done], Replies(conn.sent)[..done]).0
        invariant (effects, x) == HandledAll(old(effects), entries[from..done], Replies(conn.sent)[from..done])
      {
        ListsAt(replies, from, from + |fetched|, k);
        x := HandleOne(fetched[k], x, from, old(effects));
      }
    }

    /** One turn of the two loops that handle results; `from` is where the loop began. */
    method HandleOne(results: seq<PGresult>, soFar: Option<Error>, ghost from: nat, ghost start: Effects) returns (x: Option<Error>)
      requires from <= done < |conn.sent| && |entries| == |Commands()| && resultQueue == entries[done..]
      requires effects == HandledAll(Effects(map[], []), entries[..done], Replies(conn.sent)[..done]).0
      requires (effects, soFar) == HandledAll(start, entries[from..done], Replies(conn.sent)[from..done])
      requires results == [Replies(conn.sent)[done]]
      modifies this`resultQueue, this`effects, this`done
      ensures done == old(done) + 1 && resultQueue == entries[done..]
      ensures effects == HandledAll(Effects(map[], []), entries[..done], Replies(conn.sent)[..done]).0
      ensures (effects, x) == HandledAll(start, entries[from..done], Replies(conn.sent)[from..done])
    {
      x := ProcessNext(results, soFar);
      HandledOneMore(start, entries, Replies(conn.sent), from, done - 1);
    }

    /** _fetch_gen, once the answers are on their way: it waits for the answer of every command sent. */
    method FetchGen() returns (x: Option<Error>)
      requires Valid()
      modifies conn`arrived, conn`taken, conn`answered, this`resultQueue, this`effects, this`done
      ensures Valid() && Commands() == old(Commands()) && done == |conn.sent|
      ensures (effects, x) == HandledAll(old(effects), entries[old(done)..done], Replies(conn.sent)[old(done)..done])
    {
      ghost var from := done;
      x := None;
      while resultQueue != []
        invariant Valid() && from <= done && conn.sent == old(conn.sent) && commandQueue == old(commandQueue)
        invariant (effects, x) == HandledAll(old(effects), entries[from..done], Replies(conn.sent)[from..done])
        decreases |conn.sent| - done
      {
        var results := conn.FetchMany();
        if results == [] { break; }
        x := HandleOne(results, x, from, old(effects));
      }
    }

    /**
     _sync_gen, and the end of a pipeline block. If communicating raises, _exit_gen still fetches
     (`always`), while _sync_gen leaves the pending entries queued, in line with their answers.
     */
    method SyncGen(schedule: seq<Ready>, always: bool) returns (x: Option<Error>)
      requires Valid()
      modifies this, conn
      ensures Valid() && Commands() == old(Commands()) + [Sync] && entries == old(entries) + [ForConnection]
      ensures x.None? || always ==> resultQueue == [] && effects == HandledAll(Effects(map[], []), entries, Replies(Commands())).0
    {
      EnqueueSync();
      x := CommunicateGen(schedule);
      if x.None? || always {
        var y := FetchGen();
        x := if y.Some? then y else x;
        WholeSlice(entries, done);
        WholeSlice(Replies(conn.sent), done);
        assert conn.sent + commandQueue == conn.sent;
      }
    }
  }
}
