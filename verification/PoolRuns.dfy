/** Whole runs of the connection pool: conservation, size bound, stranded clients, shrinking. */
module PoolRuns {
  import opened Util
  import opened PoolModel

  // ---------- runs ----------

  ghost predicate Valid<P>(s: State<P>, es: seq<Event<P>>)
    decreases |es|
  {
    es != [] ==> Enabled(s, es[0]) && Valid(Step(s, es[0]), es[1..])
  }

  ghost function Final<P>(s: State<P>, es: seq<Event<P>>): State<P>
    requires Valid(s, es)
    decreases |es|
  {
    if es == [] then s else Final(Step(s, es[0]), es[1..])
  }

  lemma {:induction false} ValidPrefix<P>(s: State<P>, es: seq<Event<P>>, k: nat)
    requires Valid(s, es) && k <= |es|
    ensures Valid(s, es[..k])
    decreases |es|
  {
    if k > 0 {
      ValidPrefix(Step(s, es[0]), es[1..], k - 1);
      assert es[..k][1..] == es[1..][..k - 1];
    }
  }

  /** The state after the first `k` events. */
  ghost function At<P>(s: State<P>, es: seq<Event<P>>, k: nat): State<P>
    requires Valid(s, es) && k <= |es|
  {
    ValidPrefix(s, es, k);
    Final(s, es[..k])
  }

  lemma AtStep<P>(s: State<P>, es: seq<Event<P>>, k: nat)
    requires Valid(s, es) && 0 < k <= |es|
    ensures At(s, es, k) == At(Step(s, es[0]), es[1..], k - 1)
  {
    assert es[..k][1..] == es[1..][..k - 1];
  }

  lemma {:induction false} AtNext<P>(s: State<P>, es: seq<Event<P>>, k: nat)
    requires Valid(s, es) && k < |es|
    ensures Enabled(At(s, es, k), es[k]) && At(s, es, k + 1) == Step(At(s, es, k), es[k])
    decreases k
  {
    AtStep(s, es, k + 1);
    if k == 0 {
      assert At(Step(s, es[0]), es[1..], 0) == Step(s, es[0]);
    } else {
      AtStep(s, es, k);
      AtNext(Step(s, es[0]), es[1..], k - 1);
    }
  }

  /** One more event before a run. */
  lemma RunAfter<P>(s: State<P>, e: Event<P>, es: seq<Event<P>>)
    requires Enabled(s, e) && Valid(Step(s, e), es)
    ensures Valid(s, [e] + es) && Final(s, [e] + es) == Final(Step(s, e), es)
  {
    assert ([e] + es)[1..] == es;
  }

  ghost predicate NoResize<P>(es: seq<Event<P>>) { forall i :: 0 <= i < |es| ==> !es[i].Resize? }

  ghost predicate NoGiveUp<P>(es: seq<Event<P>>) { forall i :: 0 <= i < |es| ==> !es[i].GiveUp? }

  /** Neither a ShrinkPool run nor a check(). */
  ghost predicate Quiet<P>(es: seq<Event<P>>) { forall i :: 0 <= i < |es| ==> !es[i].Shrink? && !es[i].Check? }

  /** What a run keeps: the invariants in any case, the other two if its events allow. */
  lemma {:induction false} RunKeeps<P>(s: State<P>, es: seq<Event<P>>)
    requires Inv(s) && Valid(s, es)
    ensures Inv(Final(s, es))
    ensures NoResize(es) && Bounded(s) ==> Bounded(Final(s, es))
    ensures NoResize(es) && NoGiveUp(es) && NotStranded(s) ==> NotStranded(Final(s, es))
    decreases |es|
  {
    if es != [] {
      StepInv(s, es[0]);
      RunKeeps(Step(s, es[0]), es[1..]);
      if NoResize(es) && Bounded(s) { StepBounded(s, es[0]); }
      if NoResize(es) && NoGiveUp(es) && NotStranded(s) { StepNotStranded(s, es[0]); }
    }
  }

  /** In every reachable state the counter accounts for every connection, and each is in one place. */
  lemma PoolConservation<P>(minSize: nat, maxSize: nat, maxWaiting: int, es: seq<Event<P>>)
    requires minSize <= maxSize && 0 < maxSize
    requires Valid(Init(minSize, maxSize, maxWaiting), es)
    ensures var t := Final(Init(minSize, maxSize, maxWaiting), es);
            Conserved(t) && OnePlace(t) && IdleOrWaiting(t) && GrowthDiscipline(t)
  {
    InitInv<P>(minSize, maxSize, maxWaiting);
    RunKeeps(Init(minSize, maxSize, maxWaiting), es);
  }

  /** Without resize the pool never counts more than max_size connections. */
  lemma PoolSizeBound<P>(minSize: nat, maxSize: nat, maxWaiting: int, es: seq<Event<P>>)
    requires minSize <= maxSize && 0 < maxSize
    requires Valid(Init(minSize, maxSize, maxWaiting), es) && NoResize(es)
    ensures var t := Final(Init(minSize, maxSize, maxWaiting), es);
            t.nconns <= t.maxSize && |t.pool| + |t.held| + |Given(t)| <= t.maxSize
  {
    InitInv<P>(minSize, maxSize, maxWaiting);
    RunKeeps(Init(minSize, maxSize, maxWaiting), es);
  }

  /** Some connection is out or being prepared: its owner will serve the next client. */
  ghost predicate SomeoneWillServe<P>(s: State<P>) {
    s.held != {} || Given(s) != {} || s.transit != {} || s.growTransit != {} || s.adds > 0 || s.growAdds > 0 || s.growPost > 0
  }

  /** No stranded client: while anyone waits nothing is idle, the pool is full or growing, and someone will serve. */
  lemma NoStrandedClient<P>(minSize: nat, maxSize: nat, maxWaiting: int, es: seq<Event<P>>)
    requires minSize <= maxSize && 0 < maxSize
    requires Valid(Init(minSize, maxSize, maxWaiting), es) && NoResize(es) && NoGiveUp(es)
    ensures var t := Final(Init(minSize, maxSize, maxWaiting), es);
            t.waiting != [] ==> t.pool == [] && (t.nconns >= t.maxSize || t.growing) && SomeoneWillServe(t)
  {
    InitInv<P>(minSize, maxSize, maxWaiting);
    RunKeeps(Init(minSize, maxSize, maxWaiting), es);
  }

  // ---------- exactly when the bound holds, and when clients are served ----------

  /** A resize that leaves room for the connections it adds and those there are. */
  predicate KeepsBound<P>(s: State<P>, e: Event<P>) {
    e.Resize? ==> s.nconns + e.ngrow <= e.newMax
  }

  lemma BoundedNext<P>(s: State<P>, es: seq<Event<P>>, k: nat)
    requires Inv(s) && Valid(s, es) && k < |es| && Bounded(At(s, es, k))
    ensures Bounded(At(s, es, k + 1)) <==> KeepsBound(At(s, es, k), es[k])
  {
    AtInv(s, es, k);
    AtNext(s, es, k);
    if !es[k].Resize? { StepBounded(At(s, es, k), es[k]); }
  }

  lemma {:induction false} BoundedUpTo<P>(s: State<P>, es: seq<Event<P>>, k: nat)
    requires Inv(s) && Bounded(s) && Valid(s, es) && k <= |es|
    requires forall i :: 0 <= i < k ==> KeepsBound(At(s, es, i), es[i])
    ensures Bounded(At(s, es, k))
  {
    if k > 0 {
      BoundedUpTo(s, es, k - 1);
      BoundedNext(s, es, k - 1);
    }
  }

  /** The bound holds in every state of a run exactly when every resize finds room. */
  lemma BoundedThroughoutIff<P>(s: State<P>, es: seq<Event<P>>)
    requires Inv(s) && Bounded(s) && Valid(s, es)
    ensures (forall k :: 0 <= k <= |es| ==> Bounded(At(s, es, k)))
            <==> (forall k :: 0 <= k < |es| ==> KeepsBound(At(s, es, k), es[k]))
  {
    if forall k :: 0 <= k <= |es| ==> Bounded(At(s, es, k)) {
      forall k | 0 <= k < |es| ensures KeepsBound(At(s, es, k), es[k]) { BoundedNext(s, es, k); }
    }
    if forall k :: 0 <= k < |es| ==> KeepsBound(At(s, es, k), es[k]) {
      forall k | 0 <= k <= |es| ensures Bounded(At(s, es, k)) { BoundedUpTo(s, es, k); }
    }
  }

  lemma AtInv<P>(s: State<P>, es: seq<Event<P>>, k: nat)
    requires Inv(s) && Valid(s, es) && k <= |es|
    ensures Inv(At(s, es, k))
  {
    ValidPrefix(s, es, k);
    RunKeeps(s, es[..k]);
  }

  /** resize ignores max_size when it adds connections: a reachable pool goes over its bound. */
  lemma ResizeOvershoots()
    ensures var s := Init<nat>(1, 1, 0);
            var es := [Resize(2, 2, 1), Resize(0, 2, 0), Resize(2, 2, 2)];
            Valid(s, es) && !Bounded(Final(s, es))
  {
    var s := Init<nat>(1, 1, 0);
    var last: seq<Event<nat>> := [Resize(2, 2, 2)];
    var s1 := Step(s, Resize(2, 2, 1));
    var s2 := Step(s1, Resize(0, 2, 0));
    RunAfter(s2, Resize(2, 2, 2), []);
    RunAfter(s1, Resize(0, 2, 0), last);
    RunAfter(s, Resize(2, 2, 1), [Resize(0, 2, 0)] + last);
    assert [Resize(2, 2, 1)] + ([Resize(0, 2, 0)] + last) == [Resize(2, 2, 1), Resize(0, 2, 0), Resize(2, 2, 2)];
  }

  /**
   Nobody waits; or the pool is over its size even without the connection given up, or still full
   after the resize; or a growing task goes on.
   */
  predicate KeepsServing<P>(s: State<P>, e: Event<P>) {
    match e
    case GiveUp(grows) => s.waiting == [] || s.nconns > s.maxSize || (s.growing && !grows)
    case Resize(_, newMax, ngrow) => s.waiting == [] || s.nconns + ngrow >= newMax || s.growing
    case _ => true
  }

  lemma ServedNext<P>(s: State<P>, es: seq<Event<P>>, k: nat)
    requires Inv(s) && Valid(s, es) && k < |es| && NotStranded(At(s, es, k))
    ensures NotStranded(At(s, es, k + 1)) <==> KeepsServing(At(s, es, k), es[k])
  {
    AtInv(s, es, k);
    AtNext(s, es, k);
    StepServesIff(At(s, es, k), es[k]);
  }

  lemma {:induction false} ServedUpTo<P>(s: State<P>, es: seq<Event<P>>, k: nat)
    requires Inv(s) && NotStranded(s) && Valid(s, es) && k <= |es|
    requires forall i :: 0 <= i < k ==> KeepsServing(At(s, es, i), es[i])
    ensures NotStranded(At(s, es, k))
  {
    if k > 0 {
      ServedUpTo(s, es, k - 1);
      ServedNext(s, es, k - 1);
    }
  }

  /** Clients wait only for a full or growing pool, in every state of a run, exactly when no give-up and no resize strands one. */
  lemma ServedThroughoutIff<P>(s: State<P>, es: seq<Event<P>>)
    requires Inv(s) && NotStranded(s) && Valid(s, es)
    ensures (forall k :: 0 <= k <= |es| ==> NotStranded(At(s, es, k)))
            <==> (forall k :: 0 <= k < |es| ==> KeepsServing(At(s, es, k), es[k]))
  {
    if forall k :: 0 <= k <= |es| ==> NotStranded(At(s, es, k)) {
      forall k | 0 <= k < |es| ensures KeepsServing(At(s, es, k), es[k]) { ServedNext(s, es, k); }
    }
    if forall k :: 0 <= k < |es| ==> KeepsServing(At(s, es, k), es[k]) {
      forall k | 0 <= k <= |es| ensures NotStranded(At(s, es, k)) { ServedUpTo(s, es, k); }
    }
  }

  lemma StepServesIff<P>(s: State<P>, e: Event<P>)
    requires Inv(s) && NotStranded(s) && Enabled(s, e)
    ensures NotStranded(Step(s, e)) <==> KeepsServing(s, e)
  {
    if !e.GiveUp? && !e.Resize? { StepNotStranded(s, e); }
  }

  /** Exactly when giving up a reconnection strands the waiting clients of a pool within its bound. */
  lemma GiveUpStrandsIff<P>(s: State<P>, grows: bool)
    requires Inv(s) && Bounded(s) && NotStranded(s) && Enabled(s, GiveUp(grows))
    ensures NotStranded(Step(s, GiveUp(grows))) <==> s.waiting == [] || (s.growing && !grows)
  {
    StepServesIff(s, GiveUp(grows));
  }

  /** A client is stranded in two steps: it waits for the first connection, and that one is given up. */
  lemma GiveUpStrands()
    ensures var s := Init<nat>(1, 1, 0);
            var es := [Request(7, false), GiveUp(false)];
            Valid(s, es) && !NotStranded(Final(s, es))
  {
    var s := Init<nat>(1, 1, 0);
    var t := Step(s, Request(7, false));
    RunAfter(t, GiveUp(false), []);
    RunAfter(s, Request(7, false), [GiveUp(false)]);
    assert [Request(7, false)] + [GiveUp(false)] == [Request(7, false), GiveUp(false)];
  }

  // ---------- shrinking ----------

  /** `m` is the least number of idle connections in any state of the run. */
  ghost predicate LeastIdle<P>(s: State<P>, es: seq<Event<P>>, m: int)
    requires Valid(s, es)
  {
    && (forall k :: 0 <= k <= |es| ==> m <= |At(s, es, k).pool|)
    && (exists k :: 0 <= k <= |es| && m == |At(s, es, k).pool|)
  }

  lemma LeastIdleStep<P>(s: State<P>, es: seq<Event<P>>, rest: int)
    requires Valid(s, es) && es != [] && LeastIdle(Step(s, es[0]), es[1..], rest)
    ensures LeastIdle(s, es, Min(|s.pool|, rest))
  {
    var m := Min(|s.pool|, rest);
    assert At(s, es, 0) == s;
    forall k | 1 <= k <= |es| ensures m <= |At(s, es, k).pool| {
      AtStep(s, es, k);
    }
    var j :| 0 <= j <= |es[1..]| && rest == |At(Step(s, es[0]), es[1..], j).pool|;
    AtStep(s, es, j + 1);
    assert m == if m == rest then |At(s, es, j + 1).pool| else |At(s, es, 0).pool|;
  }

  lemma {:induction false} QuietRun<P>(s: State<P>, es: seq<Event<P>>) returns (m: int)
    requires Valid(s, es) && Quiet(es) && s.nconnsMin <= |s.pool|
    ensures LeastIdle(s, es, m) && Final(s, es).nconnsMin == Min(s.nconnsMin, m)
    ensures Final(s, es).nconnsMin <= |Final(s, es).pool|
    decreases |es|
  {
    assert At(s, es, 0) == s;
    if es == [] {
      m := |s.pool|;
    } else {
      var rest := QuietRun(Step(s, es[0]), es[1..]);
      assert rest <= |At(Step(s, es[0]), es[1..], 0).pool|;
      m := Min(|s.pool|, rest);
      LeastIdleStep(s, es, rest);
    }
  }

  /**
   From one ShrinkPool run to the next, with no check() between them, `_nconns_min` is the least
   number of idle connections seen. So a connection is dropped only if one was idle all the time,
   and the pool is never shrunk to below min_size.
   */
  lemma ShrinkHistory<P>(s: State<P>, es: seq<Event<P>>)
    requires Valid(ShrinkStep(s), es) && Quiet(es)
    ensures var t := Final(ShrinkStep(s), es);
            && LeastIdle(ShrinkStep(s), es, t.nconnsMin)
            && (ShrinkStep(t).nconns != t.nconns ==>
                 && (forall k :: 0 <= k <= |es| ==> At(ShrinkStep(s), es, k).pool != [])
                 && ShrinkStep(t).nconns >= t.minSize)
  {
    var m := QuietRun(ShrinkStep(s), es);
    assert At(ShrinkStep(s), es, 0) == ShrinkStep(s);
    assert m == Final(ShrinkStep(s), es).nconnsMin;
  }

  /**
   Exactly when a dropped connection tells that one was idle since the last ShrinkPool run: when no
   check() came between the two runs.
   */
  lemma DropMeansIdleIff<P>(s: State<P>, es: seq<Event<P>>)
    requires Valid(ShrinkStep(s), es) && (forall i :: 0 <= i < |es| ==> !es[i].Shrink?)
    requires ShrinkDrops(Final(ShrinkStep(s), es))
    ensures (forall k :: 0 <= k <= |es| ==> At(ShrinkStep(s), es, k).pool != [])
            <==> (forall i :: 0 <= i < |es| ==> !es[i].Check?)
  {
    if forall i :: 0 <= i < |es| ==> !es[i].Check? {
      ShrinkHistory(s, es);
    } else {
      var i :| 0 <= i < |es| && es[i].Check?;
      AtNext(ShrinkStep(s), es, i);
      assert At(ShrinkStep(s), es, i + 1).pool == [];
    }
  }

  /** check() empties the pool without lowering `_nconns_min`, so a connection that was not idle can be dropped. */
  lemma CheckHidesUse(s: State<nat>)
    requires Inv(s) && |s.pool| == 1 && s.nconnsMin == 1 && s.nconns > s.minSize && s.waiting == [] && s.nconns >= s.maxSize
    ensures Valid(s, [Check, Store(s.pool[0])])
    ensures Step(s, Check).pool == [] && ShrinkDrops(Final(s, [Check, Store(s.pool[0])]))
  {
    var c := s.pool[0];
    assert c in s.pool;
    var t := Step(s, Check);
    var es: seq<Event<nat>> := [Check, Store(c)];
    assert es[1..] == [Store(c)] && es[1..][1..] == [];
    var u := Step(t, Store(c));
    assert Valid(t, [Store(c)]);
    assert Final(u, []) == u;
    assert Final(t, [Store(c)]) == u;
  }

  /** Such a state is reached from a pool just opened, by one connection made and a smaller min_size. */
  lemma CheckHidesUseReached()
    ensures var es: seq<Event<nat>> := [Connected(false), Store(0), Resize(0, 1, 0)];
            && Valid(Init(1, 1, 0), es)
            && var s := Final(Init(1, 1, 0), es);
            Inv(s) && s.pool == [0] && s.nconnsMin == 1 && s.nconns > s.minSize && s.waiting == [] && s.nconns >= s.maxSize
  {
    OneIdle();
    InitInv<nat>(1, 1, 0);
    RunKeeps(Init<nat>(1, 1, 0), [Connected(false), Store(0), Resize(0, 1, 0)]);
  }

  lemma OneIdle()
    ensures var es: seq<Event<nat>> := [Connected(false), Store(0), Resize(0, 1, 0)];
            && Valid(Init(1, 1, 0), es)
            && Final(Init(1, 1, 0), es) == Init<nat>(0, 1, 0).(nconns := 1, nconnsMin := 1, pool := [0], made := 1)
  {
    var s := Init<nat>(1, 1, 0);
    var s1 := Step(s, Connected(false));
    assert s1 == s.(adds := 0, transit := {0}, made := 1);
    var s2 := Step(s1, Store(0));
    assert s2 == s.(adds := 0, pool := [0], made := 1);
    RunAfter(s2, Resize(0, 1, 0), []);
    RunAfter(s1, Store(0), [Resize(0, 1, 0)]);
    RunAfter(s, Connected(false), [Store(0)] + [Resize(0, 1, 0)]);
    var es: seq<Event<nat>> := [Connected(false), Store(0), Resize(0, 1, 0)];
    assert [Connected(false)] + ([Store(0)] + [Resize(0, 1, 0)]) == es;
  }
}
