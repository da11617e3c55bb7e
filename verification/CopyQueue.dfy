/** The queued writer of COPY: one thread puts chunks in a bounded queue, another sends them. */
module CopyQueue {

  // A state machine over the interleavings of the two threads: each event is one queue operation,
  // or the code of one thread between two of them.

  import opened Util
  import opened Wire
  import opened CopyStream

  const QUEUE_SIZE: nat := 1024

  datatype Worker = NotStarted | Running | Stopped

  /** Where the main thread is: between calls, inside write, inside finish, or after it. */
  datatype Phase = Idle | Putting | Finishing | Finished(raised: bool)

  /**
   `pending` are the chunks that the call under way has still to put in the queue. The last three
   fields are history: the chunks sent, the one that failed, and all chunks that write accepted.
   */
  datatype State = State(
    queue: seq<Bytes>, worker: Worker, error: bool, pending: seq<Bytes>, phase: Phase,
    sent: seq<Bytes>, lost: seq<Bytes>, accepted: seq<Bytes>)

  const START := State([], NotStarted, false, [], Idle, [], [], [])

  datatype Event =
    | Write(data: Bytes)   // write is called: start the worker, look for its error, cut the data
    | Put                  // the next chunk goes in the queue
    | Turn(ok: bool)       // the worker takes a chunk and sends it, or fails to
    | Finish               // finish is called
    | Join                 // the worker has ended: look for its error, end the copy

  predicate Enabled(s: State, e: Event) {
    match e
    case Write(data) => s.phase.Idle? && data != []
    case Put => s.pending != [] && |s.queue| < QUEUE_SIZE
    case Turn(_) => s.worker.Running? && s.queue != []
    case Finish => s.phase.Idle?
    case Join => s.phase.Finishing? && s.pending == [] && !s.worker.Running?
  }

  function Step(s: State, e: Event): State
    requires Enabled(s, e)
  {
    match e
    case Write(data) =>
      var t := if s.worker.NotStarted? then s.(worker := Running) else s;
      if s.error then t
      else t.(pending := Split(data), phase := Putting, accepted := s.accepted + Split(data))
    case Put =>
      var t := s.(queue := s.queue + [s.pending[0]], pending := s.pending[1..]);
      if s.phase.Putting? && |s.pending| == 1 then t.(phase := Idle) else t
    case Turn(ok) =>
      var data, t := s.queue[0], s.(queue := s.queue[1..]);
      if data == [] then t.(worker := Stopped)
      else if ok then t.(sent := s.sent + [data])
      else t.(worker := Stopped, error := true, lost := [data])
    case Finish => s.(pending := [[]], phase := Finishing)
    case Join => s.(phase := Finished(s.error), worker := NotStarted)
  }

  // ---------- the invariant ----------

  /** Good chunks, then the empty one that stops the worker. */
  ghost predicate Ended(q: seq<Bytes>) {
    q != [] && if |q| == 1 then q[0] == [] else GoodChunk(q[0]) && Ended(q[1..])
  }

  /** The chunks without the empty one. */
  ghost function Clean(q: seq<Bytes>): seq<Bytes> {
    if q == [] then [] else (if q[0] == [] then [] else [q[0]]) + Clean(q[1..])
  }

  /** In the queue or on the way to it. */
  ghost function Waiting(s: State): seq<Bytes> { s.queue + s.pending }

  ghost predicate WaitingFits(s: State) {
    match s.phase
    case Idle => GoodChunks(Waiting(s)) && s.pending == []
    case Putting => GoodChunks(Waiting(s)) && s.pending != []
    case Finishing => if s.worker.Stopped? && !s.error then Waiting(s) == [] else Ended(Waiting(s))
    case Finished(raised) => s.pending == [] && raised == s.error && (!raised ==> Clean(s.queue) == [])
  }

  ghost predicate WorkerFits(s: State) {
    && (s.worker.NotStarted? && !s.phase.Finished? ==> s.accepted == [] && !s.error)
    && (s.worker.Running? ==> !s.error && !s.phase.Finished?)
    && (s.worker.Stopped? && !s.error ==> s.phase.Finishing?)
  }

  ghost predicate Inv(s: State) {
    && s.accepted == s.sent + s.lost + Clean(Waiting(s))
    && GoodChunks(s.accepted)
    && (s.error <==> s.lost != [])
    && WaitingFits(s) && WorkerFits(s)
  }

  lemma {:induction false} CleanAppend(a: seq<Bytes>, b: seq<Bytes>)
    ensures Clean(a + b) == Clean(a) + Clean(b)
  {
    if a == [] {
      assert a + b == b;
    } else {
      assert (a + b)[1..] == a[1..] + b;
      CleanAppend(a[1..], b);
    }
  }

  lemma {:induction false} CleanGood(q: seq<Bytes>)
    requires GoodChunks(q)
    ensures Clean(q) == q
  {
    if q != [] {
      CleanGood(q[1..]);
      assert q == [q[0]] + q[1..];
    }
  }

  lemma {:induction false} EndedGood(q: seq<Bytes>)
    requires GoodChunks(q)
    ensures Ended(q + [[]])
  {
    if q != [] {
      assert (q + [[]])[1..] == q[1..] + [[]];
      EndedGood(q[1..]);
    }
  }

  lemma CleanPut(q: seq<Bytes>, chunks: seq<Bytes>)
    requires GoodChunks(q) && GoodChunks(chunks)
    ensures GoodChunks(q + chunks) && Clean(q + chunks) == Clean(q) + chunks
  {
    GoodChunksAppend(q, chunks);
    CleanAppend(q, chunks);
    CleanGood(chunks);
  }

  lemma WriteInv(s: State, data: Bytes)
    requires Inv(s) && s.phase.Idle? && data != [] && !s.error
    ensures Inv(Step(s, Write(data)))
  {
    SplitGood(data);
    GoodChunksAppend(s.accepted, Split(data));
    assert s.queue + [] == s.queue;
    CleanPut(s.queue, Split(data));
    Regroup(s.sent + s.lost, Clean(s.queue), Split(data), []);
    var t := Step(s, Write(data));
    assert t.accepted == s.accepted + Split(data) && Waiting(t) == s.queue + Split(data);
  }

  lemma PutInv(s: State)
    requires Inv(s) && Enabled(s, Put)
    ensures Inv(Step(s, Put))
  {
    assert (s.queue + [s.pending[0]]) + s.pending[1..] == Waiting(s);
  }

  lemma TurnInv(s: State, ok: bool)
    requires Inv(s) && Enabled(s, Turn(ok))
    ensures Inv(Step(s, Turn(ok)))
  {
    var data, rest := s.queue[0], s.queue[1..] + s.pending;
    assert Waiting(s)[1..] == rest && Waiting(s)[0] == data;
    if data != [] {
      assert s.sent + s.lost + ([data] + Clean(rest)) == (s.sent + s.lost + [data]) + Clean(rest);
      assert s.lost == [] && s.sent + [] == s.sent && s.sent + [data] + [] == s.sent + [data];
    }
  }

  lemma FinishInv(s: State)
    requires Inv(s) && s.phase.Idle?
    ensures Inv(Step(s, Finish))
  {
    assert s.queue + [] == s.queue;
    EndedGood(s.queue);
    var marker: seq<Bytes> := [[]];
    CleanAppend(s.queue, marker);
    assert marker[1..] == [];
    assert Clean(marker) == [];
  }

  lemma JoinInv(s: State)
    requires Inv(s) && Enabled(s, Join)
    ensures Inv(Step(s, Join))
  {
    assert s.queue + [] == s.queue;
    if s.worker.NotStarted? {
      assert |s.sent + s.lost + Clean(Waiting(s))| == 0;
    }
  }

  lemma StepInv(s: State, e: Event)
    requires Inv(s) && Enabled(s, e)
    ensures Inv(Step(s, e))
  {
    match e
    case Write(data) => if !s.error { WriteInv(s, data); }
    case Put => PutInv(s);
    case Turn(ok) => TurnInv(s, ok);
    case Finish => FinishInv(s);
    case Join => JoinInv(s);
  }

  // ---------- runs ----------

  predicate Valid(s: State, es: seq<Event>)
    decreases |es|
  {
    es != [] ==> Enabled(s, es[0]) && Valid(Step(s, es[0]), es[1..])
  }

  function Final(s: State, es: seq<Event>): State
    requires Valid(s, es)
    decreases |es|
  {
    if es == [] then s else Final(Step(s, es[0]), es[1..])
  }

  lemma {:induction false} RunInv(s: State, es: seq<Event>)
    requires Inv(s) && Valid(s, es)
    ensures Inv(Final(s, es))
    decreases |es|
  {
    if es != [] {
      StepInv(s, es[0]);
      RunInv(Step(s, es[0]), es[1..]);
    }
  }

  /** The data that write accepted: that of the calls made before the worker's error was seen. */
  function Accepted(s: State, es: seq<Event>): Bytes
    requires Valid(s, es)
    decreases |es|
  {
    if es == [] then []
    else (if es[0].Write? && !s.error then es[0].data else []) + Accepted(Step(s, es[0]), es[1..])
  }

  lemma {:induction false} AcceptedIs(s: State, es: seq<Event>)
    requires Valid(s, es)
    ensures Concat(Final(s, es).accepted) == Concat(s.accepted) + Accepted(s, es)
    decreases |es|
  {
    if es == [] {
      assert Concat(s.accepted) + [] == Concat(s.accepted);
    } else {
      AcceptedIs(Step(s, es[0]), es[1..]);
      if es[0].Write? && !s.error {
        SplitGood(es[0].data);
        ConcatAppend(s.accepted, Split(es[0].data));
        Regroup(Concat(s.accepted), es[0].data, Accepted(Step(s, es[0]), es[1..]), []);
      } else {
        assert [] + Accepted(Step(s, es[0]), es[1..]) == Accepted(Step(s, es[0]), es[1..]);
      }
    }
  }

  lemma StartInv()
    ensures Inv(START)
  {
    assert START.sent + START.lost + Clean(Waiting(START)) == [];
  }

  lemma InvDelivers(s: State)
    requires Inv(s)
    ensures s.sent <= s.accepted && (s.phase == Finished(false) ==> s.sent == s.accepted)
    ensures s.phase.Finished? ==> (s.phase.raised <==> s.error) && (s.error <==> s.sent != s.accepted)
  {
    Regroup(s.sent, s.lost, Clean(Waiting(s)), []);
    assert s.queue + [] == s.queue;
    assert s.sent + [] + [] == s.sent;
    assert s.lost != [] ==> |s.accepted| > |s.sent|;
  }

  /**
   In every run, whatever the interleaving: what has been sent is the beginning of what was written,
   in chunks that libpq can take; and when finish returns without an error, it is all of it. An error
   of the worker is always raised.
   */
  lemma QueueDelivers(es: seq<Event>)
    requires Valid(START, es)
    ensures var s := Final(START, es);
            && s.sent <= s.accepted && GoodChunks(s.accepted) && Concat(s.accepted) == Accepted(START, es)
            && (s.phase == Finished(false) ==> s.sent == s.accepted && Concat(s.sent) == Accepted(START, es))
            && (s.phase.Finished? ==> (s.phase.raised <==> s.error) && (s.error <==> s.sent != s.accepted))
  {
    StartInv();
    RunInv(START, es);
    AcceptedIs(START, es);
    assert [] + Accepted(START, es) == Accepted(START, es);
    InvDelivers(Final(START, es));
  }

  /** The queue never holds more than its 1024 places. */
  lemma {:induction false} QueueStaysSmall(s: State, es: seq<Event>)
    requires Valid(s, es) && |s.queue| <= 1024
    ensures |Final(s, es).queue| <= 1024
    decreases |es|
  {
    if es != [] { QueueStaysSmall(Step(s, es[0]), es[1..]); }
  }

  /** The data of all the calls of write, in order. */
  function Written(es: seq<Event>): Bytes {
    if es == [] then [] else (if es[0].Write? then es[0].data else []) + Written(es[1..])
  }

  lemma {:induction false} NoErrorAcceptsAll(s: State, es: seq<Event>)
    requires Valid(s, es) && !Final(s, es).error
    ensures Accepted(s, es) == Written(es) && !s.error
    decreases |es|
  {
    if es != [] { NoErrorAcceptsAll(Step(s, es[0]), es[1..]); }
  }

  /** End to end: if the writes hold the output of a copy and finish returns, the server has what was expected. */
  lemma QueuedCopyArrives(es: seq<Event>, binary: bool, ops: seq<Op>)
    requires Valid(START, es) && Final(START, es).phase == Finished(false)
    requires Written(es) == Output(binary, ops) && NoneOvertaken(Fresh(binary), ops)
    ensures Concat(Final(START, es).sent) == Expected(binary, ops)
  {
    QueueDelivers(es);
    NoErrorAcceptsAll(START, es);
    OutputIsExpected(binary, ops);
  }

  // ---------- progress ----------

  /** A thread waits for room in the queue, and no one is left to make any. */
  predicate Stuck(s: State) {
    s.pending != [] && |s.queue| >= QUEUE_SIZE && s.worker.Stopped?
  }

  lemma {:induction false} CleanShort(q: seq<Bytes>)
    requires GoodChunks(q) || Ended(q)
    ensures Clean(q) == [] ==> |q| <= 1
  {
    if GoodChunks(q) { CleanGood(q); }
  }

  /** Something can always happen until the copy has finished, except in that one case. */
  lemma ProgressIff(s: State)
    requires Inv(s) && !s.phase.Finished?
    ensures (exists e :: Enabled(s, e)) <==> !Stuck(s)
    ensures Stuck(s) ==> s.error
  {
    if !Stuck(s) {
      if s.phase.Idle? {
        assert Enabled(s, Finish);
      } else if s.pending != [] && |s.queue| < QUEUE_SIZE {
        assert Enabled(s, Put);
      } else if s.worker.NotStarted? {
        assert |s.sent + s.lost + Clean(Waiting(s))| == 0;
        CleanShort(Waiting(s));
        assert Enabled(s, Join);
      } else if s.worker.Running? {
        assert s.pending == [] ==> Ended(s.queue) by { assert s.queue + [] == s.queue; }
        assert Enabled(s, Turn(true));
      } else {
        assert Enabled(s, Join);
      }
    }
  }

  function Chunks(n: nat): (r: seq<Bytes>)
    ensures |r| == n
  {
    if n == 0 then [] else Chunks(n - 1) + [[0]]
  }

  function Filling(n: nat): seq<Event> {
    if n == 0 then [] else Filling(n - 1) + [Write([0]), Put]
  }

  lemma {:induction false} FinalAppend(s: State, a: seq<Event>, b: seq<Event>)
    requires Valid(s, a) && Valid(Final(s, a), b)
    ensures Valid(s, a + b) && Final(s, a + b) == Final(Final(s, a), b)
    decreases |a|
  {
    if a == [] {
      assert a + b == b;
    } else {
      assert (a + b)[1..] == a[1..] + b;
      FinalAppend(Step(s, a[0]), a[1..], b);
    }
  }

  lemma OneMore(q: seq<Bytes>)
    requires |q| < QUEUE_SIZE
    ensures forall w :: w in {NotStarted, Running} ==>
              var s := State(q, w, false, [], Idle, [], [], q);
              Valid(s, [Write([0]), Put]) && Final(s, [Write([0]), Put]) == State(q + [[0]], Running, false, [], Idle, [], [], q + [[0]])
  {
    var es := [Write([0]), Put];
    assert es[1..] == [Put] && [Put][1..] == [];
    assert Split([0]) == [[0]];
    var t := State(q, Running, false, [[0]], Putting, [], [], q + [[0]]);
    assert [[0]][1..] == [];
    assert Step(t, Put) == State(q + [[0]], Running, false, [], Idle, [], [], q + [[0]]);
    assert Valid(Step(t, Put), []);
    assert Valid(t, [Put]) && Final(t, [Put]) == Step(t, Put);
    forall w | w in {NotStarted, Running}
      ensures var s := State(q, w, false, [], Idle, [], [], q);
              Valid(s, es) && Final(s, es) == State(q + [[0]], Running, false, [], Idle, [], [], q + [[0]])
    {
      assert Step(State(q, w, false, [], Idle, [], [], q), es[0]) == t;
    }
  }

  lemma {:induction false} Filled(n: nat)
    requires n <= QUEUE_SIZE
    ensures Valid(START, Filling(n))
    ensures Final(START, Filling(n))
            == State(Chunks(n), if n == 0 then NotStarted else Running, false, [], Idle, [], [], Chunks(n))
  {
    if n > 0 {
      Filled(n - 1);
      OneMore(Chunks(n - 1));
      FinalAppend(START, Filling(n - 1), [Write([0]), Put]);
    }
  }

  /** The end of a run that gets stuck: the worker fails on a full queue, and finish waits for room. */
  function Hang(): seq<Event> { [Write([0]), Turn(false), Put, Finish] }

  lemma HangIs(q: seq<Bytes>)
    requires |q| == QUEUE_SIZE && q[0] == [0]
    ensures var s := State(q, Running, false, [], Idle, [], [], q);
            Valid(s, Hang()) && Stuck(Final(s, Hang()))
  {
    var s := State(q, Running, false, [], Idle, [], [], q);
    var es := Hang();
    assert Split([0]) == [[0]];
    var s1 := Step(s, es[0]);
    var s2 := Step(s1, es[1]);
    var s3 := Step(s2, es[2]);
    var s4 := Step(s3, es[3]);
    assert es[1..][1..] == es[2..] && es[2..][1..] == es[3..] && es[3..][1..] == [];
    assert Valid(s4, []) && Final(s4, []) == s4;
    assert Valid(s3, es[3..]) && Final(s3, es[3..]) == s4;
    assert Valid(s2, es[2..]) && Final(s2, es[2..]) == s4;
    assert Valid(s1, es[1..]) && Final(s1, es[1..]) == s4;
  }

  /** That case can be reached: finish puts its empty chunk without looking for the worker's error. */
  lemma FinishCanHang()
    ensures exists es :: Valid(START, es) && Stuck(Final(START, es))
  {
    Filled(QUEUE_SIZE);
    var q := Chunks(QUEUE_SIZE);
    ChunksFirst(QUEUE_SIZE);
    HangIs(q);
    FinalAppend(START, Filling(QUEUE_SIZE), Hang());
    assert Valid(START, Filling(QUEUE_SIZE) + Hang());
  }

  lemma {:induction false} ChunksFirst(n: nat)
    requires n > 0
    ensures Chunks(n)[0] == [0]
  {
    if n > 1 { ChunksFirst(n - 1); }
  }
}
