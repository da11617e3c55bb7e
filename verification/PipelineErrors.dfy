/** Which error a pipeline raises, and what it tells the statement cache. */
module PipelineErrors {
  import opened Util
  import opened Pipeline

  /** An answer that is an error for the one who waits for it: a sync is none, unless a cursor gets it. */
  predicate Bad(entry: Entry, r: PGresult) {
    r.status == FATAL_ERROR || r.status == PIPELINE_ABORTED || (r.status == PIPELINE_SYNC && entry.ForCursor?)
  }

  /** The first such answer. */
  ghost function FirstBad(entries: seq<Entry>, rs: seq<PGresult>): (r: Option<nat>)
    requires |entries| == |rs|
    ensures r.Some? ==> r.value < |rs| && Bad(entries[r.value], rs[r.value])
    ensures forall i :: 0 <= i < (if r.Some? then r.value else |rs|) ==> !Bad(entries[i], rs[i])
  {
    if rs == [] then None else
    var n := |rs| - 1;
    var r := FirstBad(entries[..n], rs[..n]);
    if r.Some? then r else if Bad(entries[n], rs[n]) then Some(n) else None
  }

  /** The error of one answer. */
  lemma OneError(e: Effects, entry: Entry, r: PGresult)
    ensures var x := Handled(e, entry, r).1;
            && (x.Some? <==> Bad(entry, r))
            && (x == Some(ServerError(r.value)) <==> r.status == FATAL_ERROR)
            && (x == Some(PipelineAborted) <==> r.status == PIPELINE_ABORTED)
  {
  }

  /**
   The first answer that is an error is the one that is raised: the server's own error if the command
   failed, PipelineAborted if it was not run. If there is none, nothing is raised.
   */
  lemma {:induction false} FirstErrorRaised(e: Effects, entries: seq<Entry>, rs: seq<PGresult>)
    requires |entries| == |rs|
    ensures var x, i := HandledAll(e, entries, rs).1, FirstBad(entries, rs);
            && (x.Some? <==> i.Some?)
            && (i.Some? && rs[i.value].status == FATAL_ERROR ==> x == Some(ServerError(rs[i.value].value)))
            && (i.Some? && rs[i.value].status == PIPELINE_ABORTED ==> x == Some(PipelineAborted))
            && (i.Some? && rs[i.value].status == PIPELINE_SYNC ==> x.value.UnexpectedStatus?)
  {
    if rs != [] {
      var n := |rs| - 1;
      FirstErrorRaised(e, entries[..n], rs[..n]);
      OneError(HandledAll(e, entries[..n], rs[..n]).0, entries[n], rs[n]);
    }
  }

  // ---------- by commands ----------

  /** The first query that fails. */
  ghost function FirstFailing(cs: seq<Command>): (r: Option<nat>)
    ensures r.Some? ==> r.value < |cs| && cs[r.value].Query? && !cs[r.value].succeeds
    ensures forall i :: 0 <= i < (if r.Some? then r.value else |cs|) ==> cs[i].Sync? || cs[i].succeeds
  {
    if cs == [] then None else
    var n := |cs| - 1;
    var r := FirstFailing(cs[..n]);
    if r.Some? then r else if cs[n].Query? && !cs[n].succeeds then Some(n) else None
  }

  lemma NotAborted(cs: seq<Command>)
    requires forall i :: 0 <= i < |cs| ==> cs[i].Sync? || cs[i].succeeds
    ensures !Aborted(cs)
  {
    AbortedIff(cs);
  }

  lemma AnswersUpTo(cs: seq<Command>, i: nat)
    requires i < |cs| && forall j :: 0 <= j < i ==> cs[j].Sync? || cs[j].succeeds
    ensures Replies(cs)[i].status ==
              if cs[i].Sync? then PIPELINE_SYNC else if cs[i].succeeds then SUCCESS else FATAL_ERROR
    ensures cs[i].Query? ==> Replies(cs)[i].value == cs[i].value
  {
    NotAborted(cs[..i]);
  }

  lemma BadIff(entry: Entry, cs: seq<Command>, i: nat)
    requires i < |cs| && (forall j :: 0 <= j < i ==> cs[j].Sync? || cs[j].succeeds) && (cs[i].Sync? ==> entry.ForConnection?)
    ensures Bad(entry, Replies(cs)[i]) <==> cs[i].Query? && !cs[i].succeeds
  {
    AnswersUpTo(cs, i);
  }

  lemma FirstBadFails(entries: seq<Entry>, cs: seq<Command>)
    requires |entries| == |cs| && forall i :: 0 <= i < |cs| && cs[i].Sync? ==> entries[i].ForConnection?
    ensures FirstBad(entries, Replies(cs)) == FirstFailing(cs)
  {
    var i, k := FirstFailing(cs), FirstBad(entries, Replies(cs));
    if i.Some? {
      BadIff(entries[i.value], cs, i.value);
      assert k.Some? && k.value <= i.value;
    }
    if k.Some? && (i.None? || k.value < i.value) {
      BadIff(entries[k.value], cs, k.value);
    }
  }

  /**
   From the start of a pipeline whose syncs are the connection's own: it raises the error of the first
   query that failed, and nothing if none did; the queries aborted after it do not hide it.
   */
  lemma FirstFailureRaised(entries: seq<Entry>, cs: seq<Command>)
    requires |entries| == |cs| && forall i :: 0 <= i < |cs| && cs[i].Sync? ==> entries[i].ForConnection?
    ensures var x, i := HandledAll(Effects(map[], []), entries, Replies(cs)).1, FirstFailing(cs);
            x == if i.Some? then Some(ServerError(cs[i.value].value)) else None
  {
    FirstErrorRaised(Effects(map[], []), entries, Replies(cs));
    FirstBadFails(entries, cs);
    var i := FirstFailing(cs);
    if i.Some? { AnswersUpTo(cs, i.value); }
  }

  // ---------- what the statement cache is told ----------

  function ToldOne(entry: Entry, r: PGresult): seq<(nat, seq<PGresult>)> {
    if entry.ForCursor? && entry.prepared.Some? then [(entry.prepared.value, [r])] else []
  }

  /** The results of the commands whose entries hold a cached statement, in order. */
  ghost function Told(entries: seq<Entry>, rs: seq<PGresult>): seq<(nat, seq<PGresult>)>
    requires |entries| == |rs|
  {
    if rs == [] then [] else ToldOne(entries[0], rs[0]) + Told(entries[1..], rs[1..])
  }

  lemma {:induction false} ToldSnoc(entries: seq<Entry>, rs: seq<PGresult>, entry: Entry, r: PGresult)
    requires |entries| == |rs|
    ensures Told(entries + [entry], rs + [r]) == Told(entries, rs) + ToldOne(entry, r)
    decreases |rs|
  {
    if rs == [] {
      assert [entry][1..] == [] && [r][1..] == [];
      assert entries + [entry] == [entry] && rs + [r] == [r];
      assert ToldOne(entry, r) + [] == [] + ToldOne(entry, r);
    } else {
      assert (entries + [entry])[1..] == entries[1..] + [entry] && (rs + [r])[1..] == rs[1..] + [r];
      ToldSnoc(entries[1..], rs[1..], entry, r);
      Regroup(ToldOne(entries[0], rs[0]), Told(entries[1..], rs[1..]), ToldOne(entry, r), []);
    }
  }

  lemma ToldNext(e: Effects, entry: Entry, r: PGresult)
    ensures Handled(e, entry, r).0.validated == e.validated + ToldOne(entry, r)
  {
  }

  /** The cache is told of every result of a query it prepared, errors included, in the order of the queries. */
  lemma {:induction false} CacheIsTold(e: Effects, entries: seq<Entry>, rs: seq<PGresult>)
    requires |entries| == |rs|
    ensures HandledAll(e, entries, rs).0.validated == e.validated + Told(entries, rs)
  {
    if rs == [] {
      assert e.validated + [] == e.validated;
    } else {
      var n := |rs| - 1;
      CacheIsTold(e, entries[..n], rs[..n]);
      ToldSnoc(entries[..n], rs[..n], entries[n], rs[n]);
      assert entries[..n] + [entries[n]] == entries && rs[..n] + [rs[n]] == rs;
      ToldNext(HandledAll(e, entries[..n], rs[..n]).0, entries[n], rs[n]);
      Regroup(e.validated, Told(entries[..n], rs[..n]), ToldOne(entries[n], rs[n]), []);
    }
  }
}
