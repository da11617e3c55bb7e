/** When a query gets prepared: what the counts of the cache count. */
module PrepareCounts {
  import opened Util
  import opened Preparing

  // ---------- the count of a key is its number of uses ----------

  ghost predicate Distinct<V>(d: seq<(Key, V)>) { forall i, j :: 0 <= i < j < |d| ==> d[i].0 != d[j].0 }

  /** The count stored for a key, if there is one. */
  function CountOf(d: seq<(Key, int)>, key: Key): (r: Option<int>)
    ensures r.Some? <==> Has(d, key)
  {
    var i := Find(d, key);
    if i < |d| then Some(d[i].1) else None
  }

  /** A query that is run is logged, if the cache is in use. */
  predicate Uses(e: Event, key: Key) { e.Exec? && e.outcome.Ran? && e.key == key }

  lemma CountAt(d: seq<(Key, int)>, i: nat)
    requires i < |d| && Distinct(d)
    ensures CountOf(d, d[i].0) == Some(d[i].1)
  {
  }

  lemma CountWithout(d: seq<(Key, int)>, k: Key, key: Key)
    requires Distinct(d)
    ensures Distinct(Without(d, k))
    ensures CountOf(Without(d, k), key) == if key == k then None else CountOf(d, key)
  {
    var i, r := Find(d, k), Without(d, k);
    if i < |d| {
      assert |r| == |d| - 1;
      assert forall a :: 0 <= a < |r| ==> r[a] == d[if a < i then a else a + 1];
    }
    HasWithout(d, k, key);
    if Has(d, key) && key != k {
      var j := Find(d, key);
      CountAt(d, j);
      CountAt(r, if j < i then j else j - 1);
    }
  }

  lemma CountSnoc(d: seq<(Key, int)>, k: Key, n: int, key: Key)
    requires Distinct(d) && !Has(d, k)
    ensures Distinct(d + [(k, n)])
    ensures CountOf(d + [(k, n)], key) == if key == k then Some(n) else CountOf(d, key)
  {
    var r := d + [(k, n)];
    assert forall a :: 0 <= a < |d| ==> r[a] == d[a] && d[a].0 != k;
    HasSnoc(d, k, n);
    if key == k {
      CountAt(r, |d|);
    } else if Has(d, key) {
      CountAt(d, Find(d, key));
      CountAt(r, Find(d, key));
    }
  }

  lemma CountTail(d: seq<(Key, int)>, key: Key)
    requires Distinct(d) && d != []
    ensures Distinct(d[1..]) && (CountOf(d[1..], key).Some? ==> CountOf(d[1..], key) == CountOf(d, key))
  {
    if Has(d[1..], key) {
      var j := Find(d[1..], key);
      assert d[j + 1] == d[1..][j];
      CountAt(d[1..], j);
      CountAt(d, j + 1);
    }
  }

  /** From one dictionary to the next: a count goes up by one use, stays as it is, or goes. */
  ghost predicate Counted(d: seq<(Key, int)>, e: seq<(Key, int)>, k: Key, key: Key) {
    && Distinct(e)
    && (CountOf(e, key).Some? ==>
         CountOf(e, key) == if key != k then CountOf(d, key)
                            else Some(if CountOf(d, key).Some? then CountOf(d, key).value + 1 else 1))
  }

  lemma AddedCounts(c: Cache, k: Key, prep: Prepare, name: Name, key: Key)
    requires Distinct(c.counts) && c.threshold.Some?
    ensures Counted(c.counts, Added(c, k, prep, name).0.counts, k, key)
  {
    CountWithout(c.counts, k, key);
    if Has(c.counts, k) {
      CountWithout(c.counts, k, k);
      CountSnoc(Without(c.counts, k), k, c.counts[Find(c.counts, k)].1 + 1, key);
    } else {
      CountSnoc(c.counts, k, 1, key);
    }
  }

  /** Validating only takes counts away. */
  lemma ValidatedCounts(c: Cache, k: Key, prep: Prepare, results: seq<PGresult>, key: Key)
    requires Distinct(c.counts)
    ensures var d := Validated(c, k, prep, results).counts;
            Distinct(d) && (CountOf(d, key).Some? ==> CountOf(d, key) == CountOf(c.counts, key))
  {
    var d := Validated(c, k, prep, results).counts;
    CountWithout(c.counts, k, key);
    if c.counts != [] { CountTail(c.counts, key); }
    assert d == [] || d == c.counts || d == Without(c.counts, k) || (c.counts != [] && d == c.counts[1..]);
  }

  lemma ExecutedCounts(s: Session, k: Key, prepare: Option<bool>, results: seq<PGresult>, key: Key)
    requires Distinct(s.cache.counts) && s.cache.threshold.Some?
    ensures Counted(s.cache.counts, Executed(s, k, prepare, Ran(results)).cache.counts, k, key)
  {
    var (c1, prep, name) := Get(s.cache, k, prepare);
    var (c2, added) := Added(c1, k, prep, name);
    AddedCounts(c1, k, prep, name, key);
    if added { ValidatedCounts(c2, k, prep, results, key); }
  }

  lemma ExecutedRest(s: Session, k: Key, prepare: Option<bool>, outcome: Outcome)
    requires s.cache.threshold.Some?
    ensures var t := Executed(s, k, prepare, outcome);
            && t.cache.threshold == s.cache.threshold && t.uses == s.uses + (if outcome.Ran? then [k] else [])
            && (outcome.PrepareFails? ==> t.cache.counts == s.cache.counts)
  {
  }

  lemma StepCounts(s: Session, e: Event, key: Key)
    requires Distinct(s.cache.counts) && s.cache.threshold.Some?
    ensures var t := Step(s, e);
            && Distinct(t.cache.counts) && t.cache.threshold == s.cache.threshold
            && t.uses == s.uses + (if e.Exec? && e.outcome.Ran? then [e.key] else [])
            && (CountOf(t.cache.counts, key).Some? ==>
                 CountOf(t.cache.counts, key)
                 == if !Uses(e, key) then CountOf(s.cache.counts, key)
                    else Some(if CountOf(s.cache.counts, key).Some? then CountOf(s.cache.counts, key).value + 1 else 1))
  {
    if e.Exec? {
      ExecutedRest(s, e.key, e.prepare, e.outcome);
      if e.outcome.Ran? { ExecutedCounts(s, e.key, e.prepare, e.outcome.results, key); }
      assert Step(s, e).cache.counts == Executed(s, e.key, e.prepare, e.outcome).cache.counts;
    } else {
      assert CountOf([], key) == None;
    }
  }

  /** The key has a count in every state after the first. */
  ghost predicate StaysCounted(s: Session, es: seq<Event>, key: Key)
    decreases |es|
  {
    es != [] ==> Has(Step(s, es[0]).cache.counts, key) && StaysCounted(Step(s, es[0]), es[1..], key)
  }

  function Logged(e: Event): seq<Key> { if e.Exec? && e.outcome.Ran? then [e.key] else [] }

  /** The keys of the queries that were run. */
  function Log(es: seq<Event>): seq<Key> { if es == [] then [] else Logged(es[0]) + Log(es[1..]) }

  lemma {:induction false} UsesAre(s: Session, es: seq<Event>)
    requires s.cache.threshold.Some?
    ensures Run(s, es).uses == s.uses + Log(es) && Run(s, es).cache.threshold == s.cache.threshold
    decreases |es|
  {
    if es != [] {
      StepLogs(s, es[0]);
      UsesAre(Step(s, es[0]), es[1..]);
      Regroup(s.uses, Logged(es[0]), Log(es[1..]), []);
    } else {
      assert s.uses + [] == s.uses;
    }
  }

  lemma StepLogs(s: Session, e: Event)
    requires s.cache.threshold.Some?
    ensures Step(s, e).uses == s.uses + Logged(e) && Step(s, e).cache.threshold == s.cache.threshold
  {
    if e.Exec? { ExecutedRest(s, e.key, e.prepare, e.outcome); }
  }

  function CountOrZero(d: seq<(Key, int)>, key: Key): int { if Has(d, key) then CountOf(d, key).value else 0 }

  lemma StepUses(s: Session, e: Event, key: Key)
    requires Distinct(s.cache.counts) && s.cache.threshold.Some? && Has(Step(s, e).cache.counts, key)
    ensures var t := Step(s, e);
            && Distinct(t.cache.counts) && t.cache.threshold.Some?
            && CountOrZero(t.cache.counts, key) == CountOrZero(s.cache.counts, key) + multiset(Logged(e))[key]
  {
    StepCounts(s, e, key);
  }

  lemma {:induction false} CountIsLogged(s: Session, es: seq<Event>, key: Key)
    requires Distinct(s.cache.counts) && s.cache.threshold.Some? && StaysCounted(s, es, key)
    ensures CountOrZero(Run(s, es).cache.counts, key) == CountOrZero(s.cache.counts, key) + multiset(Log(es))[key]
    decreases |es|
  {
    if es != [] {
      StepUses(s, es[0], key);
      CountIsLogged(Step(s, es[0]), es[1..], key);
    }
  }

  lemma {:induction false} StaysToTheEnd(s: Session, es: seq<Event>, key: Key)
    requires StaysCounted(s, es, key) && (es != [] || Has(s.cache.counts, key))
    ensures Has(Run(s, es).cache.counts, key)
    decreases |es|
  {
    if es != [] { StaysToTheEnd(Step(s, es[0]), es[1..], key); }
  }

  /**
   In any session: the count stored for a key is the number of its uses in the log since it entered the
   dictionary, as long as it has stayed there.
   */
  lemma CountIsUses(s: Session, es: seq<Event>, key: Key)
    requires Distinct(s.cache.counts) && s.cache.threshold.Some? && !Has(s.cache.counts, key)
    requires es != [] && StaysCounted(s, es, key)
    ensures var t := Run(s, es);
            s.uses <= t.uses && CountOf(t.cache.counts, key) == Some(multiset(t.uses[|s.uses|..])[key])
  {
    UsesAre(s, es);
    CountIsLogged(s, es, key);
    StaysToTheEnd(s, es, key);
    assert (s.uses + Log(es))[|s.uses|..] == Log(es);
  }

  // ---------- the answers ----------

  /**
   Preparing can be forbidden or demanded; else it is the count that decides. A query that is prepared
   goes by the name it got.
   */
  lemma AnswerIs(c: Cache, key: Key, prepare: Option<bool>)
    ensures Get(c, key, prepare).1 == NO <==>
              || prepare == Some(false) || c.threshold == None
              || (!Has(c.names, key) && prepare == None && CountOrZero(c.counts, key) < c.threshold.value)
    ensures Get(c, key, prepare).1 == YES ==> (key, Get(c, key, prepare).2) in c.names
    ensures Get(c, key, prepare).1 == SHOULD ==> !Has(c.names, key) && Get(c, key, prepare).2 == c.idx
    ensures Get(c, key, prepare).0 == if Get(c, key, prepare).1 == SHOULD then c.(idx := c.idx + 1) else c
  {
    var i := Find(c.names, key);
    if i < |c.names| { assert c.names[i] == (key, c.names[i].1) && (key, c.names[i].1) in c.names; }
    match prepare
    case None =>
    case Some(b) => assert b || prepare == Some(false);
  }

  /** One success that voids no plans. */
  ghost predicate Succeeds(results: seq<PGresult>) {
    |results| == 1 && results[0].status in {COMMAND_OK, TUPLES_OK} && !results[0].dropsOrRollsBack
  }

  /** The same query again and again, with preparing neither forbidden nor demanded. */
  ghost predicate Repeats(es: seq<Event>, key: Key) {
    forall i :: 0 <= i < |es| ==> es[i].Exec? && es[i].key == key && es[i].prepare == None
                                  && es[i].outcome.Ran? && Succeeds(es[i].outcome.results)
  }

  /** The cache after k uses of one key. */
  ghost predicate After(c: Cache, key: Key, n: int, k: nat) {
    && c.threshold == Some(n) && c.preparedMax > 0 && c.toFlush == []
    && if k == 0 then c.counts == [] && c.names == []
       else if k <= n then c.counts == [(key, k)] && c.names == []
       else c.counts == [] && |c.names| == 1 && c.names[0].0 == key
  }

  lemma NotVoid(results: seq<PGresult>)
    requires Succeeds(results)
    ensures !VoidsPlans(results) && Preparing.Valid(results) && Passes(results)
  {
  }

  lemma AfterGet(c: Cache, key: Key, n: int, k: nat)
    requires After(c, key, n, k)
    ensures var (d, prep, name) := Get(c, key, None);
            && prep == (if k < n then NO else if k == Max(0, n) then SHOULD else YES)
            && d == c.(idx := d.idx)
  {
  }

  lemma AfterAdded(c: Cache, key: Key, n: int, k: nat, prep: Prepare, name: Name)
    requires After(c, key, n, k) && prep == (if k < n then NO else if k == Max(0, n) then SHOULD else YES)
    ensures After(Added(c, key, prep, name).0, key, n, k + 1)
  {
    if 0 < k <= n {
      assert Find(c.counts, key) == 0;
      assert Without(c.counts, key) == [];
    }
    if k > Max(0, n) {
      assert Without(c.names, key) == [];
    }
  }

  lemma AfterStep(s: Session, e: Event, key: Key, n: int, k: nat)
    requires After(s.cache, key, n, k) && Repeats([e], key)
    ensures After(Step(s, e).cache, key, n, k + 1)
  {
    assert e == [e][0];
    var (c1, prep, name) := Get(s.cache, key, None);
    AfterGet(s.cache, key, n, k);
    AfterAdded(c1, key, n, k, prep, name);
    NotVoid(e.outcome.results);
    var (c2, added) := Added(c1, key, prep, name);
    assert Rotated(c2) == c2;
    assert Validated(c2, key, prep, e.outcome.results) == c2;
  }

  lemma {:induction false} AfterRun(s: Session, es: seq<Event>, key: Key, n: int, k: nat)
    requires After(s.cache, key, n, k) && Repeats(es, key)
    ensures After(Run(s, es).cache, key, n, k + |es|)
    decreases |es|
  {
    if es != [] {
      AfterStep(s, es[0], key, n, k);
      AfterRun(Step(s, es[0]), es[1..], key, n, k + 1);
    }
  }

  /** A query run again and again is sent as it is up to the threshold, then prepared once, and found prepared ever after. */
  lemma PreparedAtThreshold(n: int, preparedMax: nat, es: seq<Event>, key: Key)
    requires preparedMax > 0 && Repeats(es, key)
    ensures var s := Run(InitSession(Some(n), preparedMax), es);
            Get(s.cache, key, None).1 == if |es| < n then NO else if |es| == Max(0, n) then SHOULD else YES
  {
    AfterRun(InitSession(Some(n), preparedMax), es, key, n, 0);
    AfterGet(Run(InitSession(Some(n), preparedMax), es).cache, key, n, |es|);
  }

  // ---------- what is not kept ----------

  lemma ForgottenIs(c: Cache, key: Key, prep: Prepare, results: seq<PGresult>)
    requires Distinct(c.counts) && Distinct(c.names) && !Preparing.Valid(results)
    ensures var d := Validated(c, key, prep, results); !Has(d.counts, key) && !Has(d.names, key)
  {
    HasWithout(c.names, key, key);
    HasWithout(c.counts, key, key);
  }

  lemma AddedNew(c: Cache, key: Key, prep: Prepare, name: Name)
    requires Distinct(c.counts) && Distinct(c.names) && c.threshold.Some? && !Has(c.counts, key) && !Has(c.names, key)
    ensures var (d, added) := Added(c, key, prep, name); added && Distinct(d.counts) && Distinct(d.names)
  {
  }

  /** A new query that did not end in one success is forgotten, whatever it was going to be. */
  lemma FailureForgotten(s: Session, key: Key, prepare: Option<bool>, results: seq<PGresult>)
    requires !Has(s.cache.counts, key) && !Has(s.cache.names, key)
    requires Distinct(s.cache.counts) && Distinct(s.cache.names)
    requires !(|results| == 1 && results[0].status in {COMMAND_OK, TUPLES_OK})
    ensures var t := Step(s, Exec(key, prepare, Ran(results)));
            !Has(t.cache.counts, key) && !Has(t.cache.names, key)
  {
    var (c1, prep, name) := Get(s.cache, key, prepare);
    if c1.threshold.Some? {
      AddedNew(c1, key, prep, name);
      ForgottenIs(Added(c1, key, prep, name).0, key, prep, results);
    }
    var t := Executed(s, key, prepare, Ran(results));
    assert !Has(t.cache.counts, key) && !Has(t.cache.names, key);
  }

  /** A rollback makes the cache forget all, and the server too; clear says whether the server has to be told. */
  lemma RollbackForgets(s: Session)
    ensures Cleared(s.cache).1 <==> s.cache.names != []
    ensures var t := Step(s, Rollback);
            t.cache.counts == [] && t.cache.names == [] && t.cache.toFlush == [] && (s.cache.names != [] ==> t.server == {})
  {
    assert Flushed(s.server, [None]) == Flushed({}, [None][1..]) == {};
  }

  /** A new query after which cached plans are void leaves nothing in the cache, and if it does not raise nothing on the server. */
  lemma VoidedForgets(s: Session, key: Key, prepare: Option<bool>, results: seq<PGresult>, i: nat)
    requires !Has(s.cache.counts, key) && !Has(s.cache.names, key) && s.cache.threshold.Some?
    requires i < |results| && results[i].status == COMMAND_OK && results[i].dropsOrRollsBack
    requires s.cache.names != []
    ensures var t := Step(s, Exec(key, prepare, Ran(results)));
            && t.cache.counts == [] && t.cache.names == []
            && ((forall j :: 0 <= j < |results| ==> results[j].status != ERROR) ==> t.server == {})
  {
    var (c1, prep, name) := Get(s.cache, key, prepare);
    var c2 := Added(c1, key, prep, name).0;
    assert VoidsPlans(results);
    assert Flushed(s.server + {name}, [None]) == Flushed({}, [None][1..]) == {};
    assert Flushed(s.server, [None]) == Flushed({}, [None][1..]) == {};
  }
}
