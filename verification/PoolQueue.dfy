/** Order and limits of a pool: who is served first, and who is turned away. */
module PoolQueue {
  import opened Util
  import opened PoolModel
  import opened PoolRuns
  import opened Pool
  import opened NullPool

  // ---------- what one step does to the queue of clients ----------

  /** A client that was told to wait stands at the end; one connection offered takes one client from the front. */
  lemma StepQueue<P>(s: State<P>, e: Event<P>)
    requires Enabled(s, e)
    ensures var w := Step(s, e).waiting;
            match e
            case Request(p, _) => w == s.waiting || w == s.waiting + [p]
            case Deliver(_) => w == s.waiting[1..]
            case _ => w == s.waiting
  {
  }

  /** What a request comes to: an idle connection, a place in the queue, or a refusal that changes nothing. */
  lemma RequestOutcome<P>(s: State<P>, p: P, expired: bool)
    requires Enabled(s, Request(p, expired))
    ensures var t := Step(s, Request(p, expired));
            var waits := !expired && s.pool == [] && (s.maxWaiting == 0 || |s.waiting| < s.maxWaiting);
            && (p in t.waiting <==> waits)
            && (waits ==> t.waiting == s.waiting + [p] && t.slots == s.slots[p := Slot(None, false)])
            && (!expired && s.pool != [] ==>
                 t.held == s.held + {s.pool[0]} && t.pool == s.pool[1..] && t.waiting == s.waiting && t.slots == s.slots)
            && (!waits && (expired || s.pool == []) ==> t == s)
  {
  }

  /** A connection is put in the hands of the first client if that one still waits without an answer, and of no other. */
  lemma StepHands<P>(s: State<P>, e: Event<P>, p: P)
    requires Enabled(s, e) && p in s.slots && p in Step(s, e).slots
    ensures Step(s, e).slots[p].conn !=  s.slots[p].conn
            <==> e.Deliver? && p == s.waiting[0] && s.slots[p] == Slot(None, false)
    ensures Step(s, e).slots[p].conn != s.slots[p].conn ==> Step(s, e).slots[p].conn == Some(e.conn)
  {
  }

  // ---------- first come, first served ----------

  /** When a client last asked, among the first k events; -1 if it has not. */
  ghost function Arrival<P>(es: seq<Event<P>>, k: nat, p: P): (r: int)
    requires k <= |es|
    ensures -1 <= r < k && (r >= 0 ==> es[r].Request? && es[r].client == p)
    ensures forall i :: r < i < k && es[i].Request? ==> es[i].client != p
  {
    if k == 0 then -1
    else if es[k - 1].Request? && es[k - 1].client == p then k - 1
    else Arrival(es, k - 1, p)
  }

  /** Clients in the order in which they asked. */
  ghost predicate InOrder<P>(es: seq<Event<P>>, k: nat, w: seq<P>)
    requires k <= |es|
  {
    && (forall a :: 0 <= a < |w| ==> 0 <= Arrival(es, k, w[a]))
    && (forall a, b :: 0 <= a < b < |w| ==> Arrival(es, k, w[a]) < Arrival(es, k, w[b]))
  }

  lemma OrderKept<P>(es: seq<Event<P>>, k: nat, w: seq<P>)
    requires k < |es| && InOrder(es, k, w) && (es[k].Request? ==> es[k].client !in w)
    ensures InOrder(es, k + 1, w)
  {
    assert forall a :: 0 <= a < |w| ==> w[a] in w;
    assert forall a :: 0 <= a < |w| ==> Arrival(es, k + 1, w[a]) == Arrival(es, k, w[a]);
  }

  lemma OrderJoined<P>(es: seq<Event<P>>, k: nat, w: seq<P>)
    requires k < |es| && InOrder(es, k, w) && es[k].Request? && es[k].client !in w
    ensures InOrder(es, k + 1, w + [es[k].client])
  {
    OrderKept(es, k, w);
    assert Arrival(es, k + 1, es[k].client) == k;
    assert forall a :: 0 <= a < |w| ==> Arrival(es, k + 1, w[a]) < k by {
      assert forall a :: 0 <= a < |w| ==> w[a] in w;
    }
  }

  lemma OrderTail<P>(es: seq<Event<P>>, k: nat, w: seq<P>)
    requires k <= |es| && w != [] && InOrder(es, k, w)
    ensures InOrder(es, k, w[1..])
  {
    assert forall a :: 0 <= a < |w| - 1 ==> w[1..][a] == w[a + 1];
  }

  lemma OrderStep<P>(es: seq<Event<P>>, k: nat, w: seq<P>, next: seq<P>)
    requires k < |es| && InOrder(es, k, w) && (es[k].Request? ==> es[k].client !in w)
    requires match es[k]
             case Request(p, _) => next == w || next == w + [p]
             case Deliver(_) => w != [] && next == w[1..]
             case _ => next == w
    ensures InOrder(es, k + 1, next)
  {
    if es[k].Deliver? { OrderTail(es, k, w); }
    if next == w || es[k].Deliver? {
      OrderKept(es, k, next);
    } else {
      OrderJoined(es, k, w);
    }
  }

  /** In every state of a run the clients wait in the order in which they asked. */
  lemma {:induction false} QueueInOrder<P>(s: State<P>, es: seq<Event<P>>, k: nat)
    requires PoolRuns.Valid(s, es) && k <= |es| && s.waiting == []
    ensures InOrder(es, k, At(s, es, k).waiting)
  {
    if k == 0 {
      assert At(s, es, 0) == s;
    } else {
      QueueInOrder(s, es, k - 1);
      AtNext(s, es, k - 1);
      var t, e := At(s, es, k - 1), es[k - 1];
      StepQueue(t, e);
      OrderStep(es, k - 1, t.waiting, Step(t, e).waiting);
    }
  }

  /** A client that waits, has no answer yet and has not given up. */
  ghost predicate StillThere<P>(s: State<P>, p: P) {
    p in s.waiting && p in s.slots && s.slots[p] == Slot(None, false)
  }

  /** The first position from i on whose client is still there, or the length of the queue. */
  ghost function FirstThere<P>(s: State<P>, i: nat): (r: nat)
    requires i <= |s.waiting|
    ensures i <= r <= |s.waiting| && (r < |s.waiting| ==> StillThere(s, s.waiting[r]))
    ensures forall j :: i <= j < r ==> !StillThere(s, s.waiting[j])
    decreases |s.waiting| - i
  {
    if i == |s.waiting| || StillThere(s, s.waiting[i]) then i else FirstThere(s, i + 1)
  }

  lemma AcceptsIff<P>(s: State<P>, p: P)
    requires p in s.waiting
    ensures Accepts(s, p) <==> StillThere(s, p)
  {
    if p in s.slots { assert s.slots[p] == Slot(s.slots[p].conn, s.slots[p].error); }
  }

  /**
   Whatever happened before, a connection that comes free goes to the client that has waited longest among
   those still there; it becomes idle only if there is none.
   */
  lemma LongestWaitingIsServed<P>(s: State<P>, es: seq<Event<P>>, c: Conn) returns (q: Option<P>)
    requires PoolRuns.Valid(s, es) && s.waiting == [] && InTransit(At(s, es, |es|), c)
    ensures var t := At(s, es, |es|);
            var u := AddToPoolStep(t, c);
            && (q.None? ==> u.pool == t.pool + [c] && u.slots == t.slots && forall p :: p in t.waiting ==> !StillThere(t, p))
            && (q.Some? ==>
                 && StillThere(t, q.value) && u.pool == t.pool && u.slots == t.slots[q.value := Slot(Some(c), false)]
                 && forall p :: StillThere(t, p) && p != q.value ==> Arrival(es, |es|, q.value) < Arrival(es, |es|, p))
  {
    var t := At(s, es, |es|);
    QueueInOrder(s, es, |es|);
    var k := FirstThere(t, 0);
    forall j | 0 <= j < |t.waiting| ensures Accepts(t, t.waiting[j]) <==> StillThere(t, t.waiting[j]) {
      AcceptsIff(t, t.waiting[j]);
    }
    AddToPoolServesFirst(t, c, k);
    if k == |t.waiting| {
      q := None;
      forall p | p in t.waiting ensures !StillThere(t, p) {
        var j :| 0 <= j < |t.waiting| && t.waiting[j] == p;
      }
    } else {
      q := Some(t.waiting[k]);
      forall p | StillThere(t, p) && p != q.value ensures Arrival(es, |es|, q.value) < Arrival(es, |es|, p) {
        var j :| 0 <= j < |t.waiting| && t.waiting[j] == p;
      }
    }
  }

  // ---------- limits ----------

  /** With a limit, no more clients wait than it says, in every state of a run. */
  lemma {:induction false} QueueLimit<P>(s: State<P>, es: seq<Event<P>>)
    requires PoolRuns.Valid(s, es) && s.maxWaiting > 0 && |s.waiting| <= s.maxWaiting
    ensures Final(s, es).maxWaiting == s.maxWaiting && |Final(s, es).waiting| <= s.maxWaiting
    decreases |es|
  {
    if es != [] {
      StepQueue(s, es[0]);
      StepLimit(s, es[0]);
      QueueLimit(Step(s, es[0]), es[1..]);
    }
  }

  lemma StepLimit<P>(s: State<P>, e: Event<P>)
    requires Enabled(s, e) && s.maxWaiting > 0 && |s.waiting| <= s.maxWaiting
    ensures Step(s, e).maxWaiting == s.maxWaiting && |Step(s, e).waiting| <= s.maxWaiting
  {
  }

  /** A client that has to wait and a check() find the pool empty: it then grows by one, if it is neither full nor growing. */
  lemma EmptyPoolGrows<P>(s: State<P>, e: Event<P>)
    requires Enabled(s, e) && (e.Check? || (e.Request? && e.client in Step(s, e).waiting))
    ensures var t := Step(s, e);
            && (t.growing || t.nconns >= t.maxSize)
            && t.nconns == s.nconns + if s.nconns < s.maxSize && !s.growing then 1 else 0
  {
  }

  /** Which sizes are refused, and why. */
  lemma SizeErrors(minSize: int, maxSize: Option<int>)
    ensures var r, max := CheckSize(minSize, maxSize), if maxSize.Some? then maxSize.value else minSize;
            && (r == Err("min_size cannot be negative") <==> minSize < 0)
            && (r == Err("max_size must be greater or equal than min_size") <==> 0 <= minSize && max < minSize)
            && (r == Err("if min_size is 0 max_size must be greater or than 0") <==> minSize == 0 == max)
            && (r.Ok? ==> r.value == (minSize, max))
  {
  }

  /** The pool counts fewer than min_size connections only while it grows. */
  ghost predicate Filling<P>(s: State<P>) { s.nconns >= s.minSize || s.growing }

  /** Growth does not end below min_size, and shrinking does not go below it. */
  lemma StepFilling<P>(s: State<P>, e: Event<P>)
    requires Enabled(s, e) && Filling(s) && !e.Resize? && !e.GiveUp?
    ensures Filling(Step(s, e))
  {
  }

  /** A growing task ends when nothing is left to grow for: neither min_size nor a waiting client. */
  lemma GrowthEndsIff<P>(s: State<P>)
    requires Enabled(s, GrowMore) && s.growing
    ensures !Step(s, GrowMore).growing <==> Filling(s.(growing := false)) && NotStranded(s.(growing := false))
  {
  }

  // ---------- the idle connections ----------

  /** When a connection last became idle, among the first k events; -1 if it has not. */
  ghost function Stored<P>(es: seq<Event<P>>, k: nat, c: Conn): (r: int)
    requires k <= |es|
    ensures -1 <= r < k && (r >= 0 ==> es[r] == Store(c))
    ensures forall i :: r < i < k ==> es[i] != Store(c)
  {
    if k == 0 then -1 else if es[k - 1] == Store(c) then k - 1 else Stored(es, k - 1, c)
  }

  ghost predicate IdleInOrder<P>(es: seq<Event<P>>, k: nat, pool: seq<Conn>)
    requires k <= |es|
  {
    && (forall a :: 0 <= a < |pool| ==> 0 <= Stored(es, k, pool[a]))
    && (forall a, b :: 0 <= a < b < |pool| ==> Stored(es, k, pool[a]) < Stored(es, k, pool[b]))
  }

  /** A connection becomes idle at the end of the pool, and leaves it from the front; check() takes all. */
  lemma StepIdle<P>(s: State<P>, e: Event<P>)
    requires Enabled(s, e) && Inv(s)
    ensures var pool := Step(s, e).pool;
            match e
            case Store(c) => c !in s.pool && pool == s.pool + [c]
            case Check => pool == []
            case _ => pool == s.pool || (s.pool != [] && pool == s.pool[1..])
  {
  }

  lemma IdleKept<P>(es: seq<Event<P>>, k: nat, pool: seq<Conn>)
    requires k < |es| && IdleInOrder(es, k, pool) && (es[k].Store? ==> es[k].conn !in pool)
    ensures IdleInOrder(es, k + 1, pool)
  {
    assert forall a :: 0 <= a < |pool| ==> pool[a] in pool;
    assert forall a :: 0 <= a < |pool| ==> Stored(es, k + 1, pool[a]) == Stored(es, k, pool[a]);
  }

  /** The idle connections stand in the order in which they became idle, so the one idle longest is used next. */
  lemma {:induction false} LongestIdleFirst<P>(s: State<P>, es: seq<Event<P>>, k: nat)
    requires PoolRuns.Valid(s, es) && k <= |es| && Inv(s) && s.pool == []
    ensures IdleInOrder(es, k, At(s, es, k).pool)
  {
    if k == 0 {
      assert At(s, es, 0) == s;
    } else {
      LongestIdleFirst(s, es, k - 1);
      AtInv(s, es, k - 1);
      AtNext(s, es, k - 1);
      var t, e := At(s, es, k - 1), es[k - 1];
      StepIdle(t, e);
      IdleKept(es, k - 1, t.pool);
      IdleMore(es, k - 1, t.pool, Step(t, e).pool);
    }
  }

  lemma IdleMore<P>(es: seq<Event<P>>, k: nat, pool: seq<Conn>, next: seq<Conn>)
    requires k < |es| && IdleInOrder(es, k + 1, pool) && (es[k].Store? ==> es[k].conn !in pool)
    requires next == [] || next == pool || (pool != [] && next == pool[1..]) || (es[k].Store? && next == pool + [es[k].conn])
    ensures IdleInOrder(es, k + 1, next)
  {
    assert forall a :: 0 <= a < |pool| ==> pool[a] in pool;
    if es[k].Store? {
      assert Stored(es, k + 1, es[k].conn) == k;
      assert forall a :: 0 <= a < |pool| ==> Stored(es, k + 1, pool[a]) < k;
    }
  }

  // ---------- the null pool ----------

  /** When a client of the null pool last asked. */
  ghost function NullArrival<P>(es: seq<NullEvent<P>>, p: P): (r: int)
    ensures -1 <= r < |es| && (r >= 0 ==> es[r].NullRequest? && es[r].client == p)
    ensures forall i :: r < i < |es| && es[i].NullRequest? ==> es[i].client != p
  {
    if es == [] then -1
    else if es[|es| - 1].NullRequest? && es[|es| - 1].client == p then |es| - 1
    else NullArrival(es[..|es| - 1], p)
  }

  ghost predicate NullInOrder<P>(es: seq<NullEvent<P>>, w: seq<P>) {
    && (forall a :: 0 <= a < |w| ==> 0 <= NullArrival(es, w[a]))
    && (forall a, b :: 0 <= a < b < |w| ==> NullArrival(es, w[a]) < NullArrival(es, w[b]))
  }

  lemma NullStepQueue<P>(s: State<P>, e: NullEvent<P>)
    requires NullEnabled(s, e)
    ensures var w := NullStep(s, e).waiting;
            && (e.NullRequest? ==> e.client !in s.waiting && (w == s.waiting || w == s.waiting + [e.client]))
            && (!e.NullRequest? ==> w == s.waiting || (s.waiting != [] && w == s.waiting[1..]))
  {
  }

  lemma NullOrderStep<P>(es: seq<NullEvent<P>>, e: NullEvent<P>, w: seq<P>, next: seq<P>)
    requires NullInOrder(es, w) && (e.NullRequest? ==> e.client !in w)
    requires next == w || (w != [] && next == w[1..]) || (e.NullRequest? && next == w + [e.client])
    ensures NullInOrder(es + [e], next)
  {
    assert (es + [e])[..|es|] == es;
    assert forall a :: 0 <= a < |w| ==> w[a] in w;
    assert forall a :: 0 <= a < |w| ==> NullArrival(es + [e], w[a]) == NullArrival(es, w[a]);
    if e.NullRequest? { assert NullArrival(es + [e], e.client) == |es|; }
  }

  /** Clients of the null pool wait in the order in which they asked too; `before` are the events so far. */
  lemma {:induction false} NullQueueInOrder<P>(before: seq<NullEvent<P>>, s: State<P>, es: seq<NullEvent<P>>)
    requires NullValid(s, es) && NullInOrder(before, s.waiting)
    ensures NullInOrder(before + es, NullFinal(s, es).waiting)
    decreases |es|
  {
    if es == [] {
      assert before + es == before;
    } else {
      NullStepQueue(s, es[0]);
      NullOrderStep(before, es[0], s.waiting, NullStep(s, es[0]).waiting);
      NullQueueInOrder(before + [es[0]], NullStep(s, es[0]), es[1..]);
      assert before + [es[0]] + es[1..] == before + es;
    }
  }

  /** What a request to the null pool comes to. */
  lemma NullRequestOutcome<P>(s: State<P>, p: P, expired: bool, connects: bool)
    requires NullEnabled(s, NullRequest(p, expired, connects))
    ensures var t := NullStep(s, NullRequest(p, expired, connects));
            var full := s.maxSize != 0 && s.nconns >= s.maxSize;
            var waits := !expired && full && (s.maxWaiting == 0 || |s.waiting| < s.maxWaiting);
            && (p in t.waiting <==> waits) && (waits ==> t.waiting == s.waiting + [p] && t.nconns == s.nconns)
            && (!expired && !full && connects ==> t.held == s.held + {s.made} && t.nconns == s.nconns + 1)
            && (!waits && (expired || full || !connects) ==> t == s)
  {
  }
}
