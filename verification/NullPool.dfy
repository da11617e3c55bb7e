/** The null pool: it keeps no idle connection. Its steps are the pool's, but for those it overrides. */
module NullPool {

  // It makes a connection for each client while it may, and closes a returned connection unless a
  // client waits for it.

  import opened Util
  import opened PoolModel
  import opened Pool

  datatype NullEvent<P> =
    | Shared(event: Event<P>)                               // steps inherited unchanged
    | NullRequest(client: P, expired: bool, connects: bool) // getconn; `connects` says if connecting works
    | Put(conn: Conn)                                       // putconn, up to _maybe_close_connection
    | CloseUnwanted(conn: Conn)                             // the else branch of _add_to_pool
    | NullResize(newMax: int)

  predicate Inherited<P>(e: Event<P>) {
    match e
    case TimeOut(_) => true
    case Leave(_) => true
    case Return(_) => true
    case Discard(_) => true
    case Deliver(_) => true
    case Connected(g) => !g
    case GiveUp(g) => !g
    case _ => false
  }

  datatype NullReady = NullExpired | ConnectFailed | NullTaken(conn: Conn) | NullTooMany | NullMustWait

  function NullGetReady<P>(s: State<P>, expired: bool, connects: bool): NullReady {
    if expired then NullExpired
    else if s.maxSize == 0 || s.nconns < s.maxSize then (if connects then NullTaken(s.made) else ConnectFailed)
    else if s.maxWaiting != 0 && |s.waiting| >= s.maxWaiting then NullTooMany
    else NullMustWait
  }

  function NullRequestStep<P>(s: State<P>, p: P, expired: bool, connects: bool): State<P> {
    match NullGetReady(s, expired, connects)
    case NullTaken(c) => s.(nconns := s.nconns + 1, held := s.held + {c}, made := s.made + 1)
    case NullMustWait => s.(waiting := s.waiting + [p], slots := s.slots[p := Slot(None, false)])
    case _ => s
  }

  ghost function PutStep<P>(s: State<P>, c: Conn): State<P> {
    if s.waiting != [] then s.(held := s.held - {c}, transit := s.transit + {c})
    else s.(held := s.held - {c}, nconns := s.nconns - 1)
  }

  ghost predicate NullEnabled<P>(s: State<P>, e: NullEvent<P>) {
    match e
    case Shared(f) => Inherited(f) && Enabled(s, f)
    case NullRequest(p, _, _) => p !in s.slots && p !in s.waiting
    case Put(c) => c in s.held
    case CloseUnwanted(c) => c in s.transit && s.waiting == []
    case NullResize(max) => 0 <= max
  }

  ghost function NullStep<P>(s: State<P>, e: NullEvent<P>): State<P>
    requires NullEnabled(s, e)
  {
    match e
    case Shared(f) => Step(s, f)
    case NullRequest(p, expired, connects) => NullRequestStep(s, p, expired, connects)
    case Put(c) => PutStep(s, c)
    case CloseUnwanted(c) => s.(transit := s.transit - {c}, nconns := s.nconns - 1)
    case NullResize(max) => s.(maxSize := max)
  }

  ghost predicate NullInv<P>(s: State<P>) {
    && Conserved(s) && OnePlace(s)
    && s.pool == [] && !s.growing && s.growAdds == 0 && s.growPost == 0 && s.growTransit == {}
    && s.minSize == 0 <= s.maxSize
  }

  /** With no size limit nobody waits; otherwise the limit holds and clients wait only for a full pool. */
  ghost predicate NullBounded<P>(s: State<P>) {
    s.maxSize > 0 ==> s.nconns <= s.maxSize
  }

  ghost predicate NullNotStranded<P>(s: State<P>) {
    s.waiting != [] ==> 0 < s.maxSize <= s.nconns
  }

  // ---------- what each step keeps ----------

  /** The inherited steps do not look at max_size, so what the pool's steps keep carries over. */
  lemma SharedConserved<P>(s: State<P>, f: Event<P>)
    requires NullInv(s) && Inherited(f) && Enabled(s, f)
    ensures Conserved(Step(s, f))
  {
    var roomy := s.(maxSize := s.maxSize + 1);
    assert Given(roomy) == Given(s);
    MoveOnePlace(s, roomy);
    StepCounts(roomy, f);
    SharedIgnoresSize(s, f);
    assert Given(Step(roomy, f)) == Given(Step(s, f));
  }

  lemma SharedIgnoresSize<P>(s: State<P>, f: Event<P>)
    requires Inherited(f) && Enabled(s, f)
    ensures Enabled(s.(maxSize := s.maxSize + 1), f)
    ensures Step(s.(maxSize := s.maxSize + 1), f) == Step(s, f).(maxSize := s.maxSize + 1)
  {
  }

  lemma SharedInv<P>(s: State<P>, f: Event<P>)
    requires NullInv(s) && Inherited(f) && Enabled(s, f)
    ensures NullInv(Step(s, f))
  {
    SharedConserved(s, f);
    StepOnePlace(s, f);
  }

  lemma NullRequestInv<P>(s: State<P>, p: P, expired: bool, connects: bool)
    requires NullInv(s) && p !in s.slots
    ensures NullInv(NullRequestStep(s, p, expired, connects))
  {
    var t := NullRequestStep(s, p, expired, connects);
    assert forall q :: q in s.slots ==> GivenApart(s, q);
    assert Given(t) == Given(s);
  }

  lemma PutInv<P>(s: State<P>, c: Conn)
    requires NullInv(s) && c in s.held
    ensures NullInv(PutStep(s, c))
  {
    assert forall q :: q in s.slots ==> GivenApart(s, q);
    assert Given(PutStep(s, c)) == Given(s);
  }

  lemma CloseUnwantedInv<P>(s: State<P>, c: Conn)
    requires NullInv(s) && NullEnabled(s, CloseUnwanted(c))
    ensures NullInv(NullStep(s, CloseUnwanted(c)))
  {
    assert forall q :: q in s.slots ==> GivenApart(s, q);
    assert Given(NullStep(s, CloseUnwanted(c))) == Given(s);
  }

  lemma NullStepInv<P>(s: State<P>, e: NullEvent<P>)
    requires NullInv(s) && NullEnabled(s, e)
    ensures NullInv(NullStep(s, e))
  {
    match e
    case Shared(f) => SharedInv(s, f);
    case NullRequest(p, expired, connects) => NullRequestInv(s, p, expired, connects);
    case Put(c) => PutInv(s, c);
    case CloseUnwanted(c) => CloseUnwantedInv(s, c);
    case NullResize(max) =>
      MoveOnePlace(s, s.(maxSize := max));
      assert Given(s.(maxSize := max)) == Given(s);
  }

  lemma NullStepBounded<P>(s: State<P>, e: NullEvent<P>)
    requires NullBounded(s) && NullEnabled(s, e) && !e.NullResize?
    ensures NullBounded(NullStep(s, e))
  {
  }

  lemma NullStepNotStranded<P>(s: State<P>, e: NullEvent<P>)
    requires 0 <= s.maxSize && NullNotStranded(s) && NullEnabled(s, e) && !e.NullResize? && !(e.Shared? && e.event.GiveUp?)
    ensures NullNotStranded(NullStep(s, e))
  {
  }

  // ---------- runs ----------

  ghost predicate NullValid<P>(s: State<P>, es: seq<NullEvent<P>>)
    decreases |es|
  {
    es != [] ==> NullEnabled(s, es[0]) && NullValid(NullStep(s, es[0]), es[1..])
  }

  ghost function NullFinal<P>(s: State<P>, es: seq<NullEvent<P>>): State<P>
    requires NullValid(s, es)
    decreases |es|
  {
    if es == [] then s else NullFinal(NullStep(s, es[0]), es[1..])
  }

  ghost predicate NullNoResize<P>(es: seq<NullEvent<P>>) { forall i :: 0 <= i < |es| ==> !es[i].NullResize? }

  ghost predicate NullNoGiveUp<P>(es: seq<NullEvent<P>>) {
    forall i :: 0 <= i < |es| ==> !(es[i].Shared? && es[i].event.GiveUp?)
  }

  lemma {:induction false} NullRun<P>(s: State<P>, es: seq<NullEvent<P>>)
    requires NullInv(s) && NullValid(s, es)
    ensures NullInv(NullFinal(s, es))
    ensures NullNoResize(es) && NullBounded(s) ==> NullBounded(NullFinal(s, es))
    ensures NullNoResize(es) && NullNoGiveUp(es) && NullNotStranded(s) ==> NullNotStranded(NullFinal(s, es))
    decreases |es|
  {
    if es != [] {
      NullStepInv(s, es[0]);
      NullRun(NullStep(s, es[0]), es[1..]);
      if NullNoResize(es) && NullBounded(s) { NullStepBounded(s, es[0]); }
      if NullNoResize(es) && NullNoGiveUp(es) && NullNotStranded(s) { NullStepNotStranded(s, es[0]); }
    }
  }

  /**
   The null pool from its opening on: conservation and one place per connection in every run; without
   resize the size bound, and without a give-up no stranded client either.
   */
  lemma NullPoolRuns<P>(maxSize: nat, maxWaiting: int, es: seq<NullEvent<P>>)
    requires NullValid(Init(0, maxSize, maxWaiting), es)
    ensures var t := NullFinal(Init(0, maxSize, maxWaiting), es);
            && t.nconns == |t.held| + |Given(t)| + |t.transit| + t.adds
            && OnePlace(t)
            && (NullNoResize(es) && t.maxSize > 0 ==> t.nconns <= t.maxSize)
            && (NullNoResize(es) && NullNoGiveUp(es) ==> NullNotStranded(t))
  {
    var s := Init<P>(0, maxSize, maxWaiting);
    assert Given(s) == {};
    NullRun(s, es);
  }

  /** The bound in every state along a run. */
  ghost predicate NullBoundedThroughout<P>(s: State<P>, es: seq<NullEvent<P>>)
    requires NullValid(s, es)
    decreases |es|
  {
    NullBounded(s) && (es != [] ==> NullBoundedThroughout(NullStep(s, es[0]), es[1..]))
  }

  /** Every resize sets no limit, or one that the connections there are do not exceed. */
  ghost predicate ResizesFit<P>(s: State<P>, es: seq<NullEvent<P>>)
    requires NullValid(s, es)
    decreases |es|
  {
    es != [] ==>
      && (es[0].NullResize? && es[0].newMax > 0 ==> s.nconns <= es[0].newMax)
      && ResizesFit(NullStep(s, es[0]), es[1..])
  }

  /** The bound holds in every state of a run exactly when every resize fits. */
  lemma {:induction false} NullBoundedThroughoutIff<P>(s: State<P>, es: seq<NullEvent<P>>)
    requires NullInv(s) && NullBounded(s) && NullValid(s, es)
    ensures NullBoundedThroughout(s, es) <==> ResizesFit(s, es)
    decreases |es|
  {
    if es != [] {
      var t := NullStep(s, es[0]);
      NullStepInv(s, es[0]);
      if !es[0].NullResize? { NullStepBounded(s, es[0]); }
      if NullBounded(t) { NullBoundedThroughoutIff(t, es[1..]); }
    }
  }

  // ---------- the overriding methods ----------

  /** _get_ready_connection: the connection is made under the lock; `connected` is what connecting gives. */
  method NullGetReadyConnection(self: ConnectionPool, expired: bool, connected: Option<Conn>) returns (r: NullReady)
    requires self.Valid() && (connected.Some? ==> connected.value == self.made)
    modifies self`nconns, self`held, self`made
    ensures self.Valid() && r == NullGetReady(old(self.View()), expired, connected.Some?)
    ensures self.View() == if r.NullTaken?
                           then old(self.View()).(nconns := old(self.nconns) + 1, held := old(self.held) + {r.conn}, made := r.conn + 1)
                           else old(self.View())
  {
    if expired { return NullExpired; }
    if self.maxSize == 0 || self.nconns < self.maxSize {
      if connected.None? { return ConnectFailed; }
      r := NullTaken(connected.value);
      self.nconns := self.nconns + 1;
      self.held := self.held + {connected.value};
      self.made := self.made + 1;
    } else if self.maxWaiting != 0 && |self.waiting| >= self.maxWaiting {
      r := NullTooMany;
    } else {
      r := NullMustWait;
    }
  }

  /** _maybe_close_connection on an open pool. */
  method NullMaybeClose(self: ConnectionPool, c: Conn) returns (closed: bool)
    requires self.Valid() && c in self.held
    modifies self`nconns, self`held, self`transit
    ensures self.Valid() && self.View() == NullStep(old(self.View()), Put(c))
    ensures closed <==> self.waiting == []
  {
    self.held := self.held - {c};
    if self.waiting != [] {
      self.transit := self.transit + {c};
      return false;
    }
    self.nconns := self.nconns - 1;
    return true;
  }

  /** _add_to_pool: like the pool's, but a connection nobody takes is closed. */
  method NullAddToPool(self: ConnectionPool, c: Conn)
    requires self.Valid() && c in self.transit && c !in self.growTransit
    modifies self`nconns, self`waiting, self`transit, self`growTransit, self`growPost, self.waiting
    ensures self.Valid() && self.View() == NullAddToPoolStep(old(self.View()), c)
  {
    ghost var s := self.View();
    while self.waiting != []
      invariant self.Valid() && c in self.transit && c !in self.growTransit
      invariant NullAddToPoolStep(self.View(), c) == NullAddToPoolStep(s, c)
      invariant forall i :: 0 <= i < |self.waiting| ==> self.waiting[i] in old(self.waiting)
      decreases |self.waiting|
    {
      var accepted := self.OfferToFirst(c);
      if accepted { return; }
    }
    self.transit := self.transit - {c};
    self.nconns := self.nconns - 1;
  }

  ghost function NullAddToPoolStep<P>(s: State<P>, c: Conn): State<P>
    requires c in s.transit && c !in s.growTransit
    decreases |s.waiting|
  {
    if s.waiting == [] then NullStep(s, CloseUnwanted(c))
    else if Accepts(s, s.waiting[0]) then NullStep(s, Shared(Deliver(c)))
    else NullAddToPoolStep(NullStep(s, Shared(Deliver(c))), c)
  }

  /** A waiting client that is still there gets the connection; only if there is none is it closed and no more counted. */
  lemma {:induction false} NullAddToPoolServesFirst<P>(s: State<P>, c: Conn, k: nat)
    requires c in s.transit && c !in s.growTransit && k <= |s.waiting|
    requires forall i :: 0 <= i < k ==> !Accepts(s, s.waiting[i])
    requires k < |s.waiting| ==> Accepts(s, s.waiting[k])
    ensures k < |s.waiting| ==>
              && NullAddToPoolStep(s, c).slots == s.slots[s.waiting[k] := Slot(Some(c), false)]
              && NullAddToPoolStep(s, c).waiting == s.waiting[k + 1..]
              && NullAddToPoolStep(s, c).nconns == s.nconns
    ensures k == |s.waiting| ==>
              && NullAddToPoolStep(s, c).slots == s.slots
              && NullAddToPoolStep(s, c).nconns == s.nconns - 1
    decreases k
  {
    if k > 0 {
      NullAddToPoolServesFirst(NullStep(s, Shared(Deliver(c))), c, k - 1);
    }
  }
}
