/**
 The cache of prepared statements of a connection, kept in step with the server. A statement name
 is `_pg3_<n>`, represented by `n`; a key is a query with its types. An ordered dictionary is the
 list of its entries, the oldest first.
 */
module Preparing {
  import opened Util

  type Key = nat
  type Name = nat

  datatype Prepare = NO | YES | SHOULD

  datatype Status = COMMAND_OK | TUPLES_OK | EMPTY_QUERY | ERROR

  /** A result: its status, and whether its command tag says that cached plans are void. */
  datatype PGresult = PGresult(status: Status, dropsOrRollsBack: bool)

  /** `None` in toFlush stands for DEALLOCATE ALL. */
  datatype Cache = Cache(
    threshold: Option<int>,
    preparedMax: nat,
    counts: seq<(Key, int)>,
    names: seq<(Key, Name)>,
    idx: nat,
    toFlush: seq<Option<Name>>)

  // ---------- ordered dictionaries ----------

  /** The position of a key, or |d|. */
  function Find<V>(d: seq<(Key, V)>, k: Key): (r: nat)
    ensures r <= |d| && (r < |d| ==> d[r].0 == k)
    ensures forall i :: 0 <= i < r ==> d[i].0 != k
    decreases |d|
  {
    if d == [] || d[0].0 == k then 0
    else (assert forall i :: 1 <= i < |d| ==> d[i] == d[1..][i - 1]; 1 + Find(d[1..], k))
  }

  predicate Has<V>(d: seq<(Key, V)>, k: Key) { Find(d, k) < |d| }

  /** del d[k] */
  function Without<V>(d: seq<(Key, V)>, k: Key): seq<(Key, V)> {
    var i := Find(d, k);
    if i < |d| then d[..i] + d[i + 1..] else d
  }

  /** d[k] = v: in place if k is there, else at the end. */
  function Put<V>(d: seq<(Key, V)>, k: Key, v: V): seq<(Key, V)> {
    var i := Find(d, k);
    if i < |d| then d[i := (k, v)] else d + [(k, v)]
  }

  // ---------- the operations ----------

  function Get(c: Cache, key: Key, prepare: Option<bool>): (Cache, Prepare, Name) {
    if prepare == Some(false) || c.threshold.None? then (c, NO, 0) else
    var n := Find(c.names, key);
    if n < |c.names| then (c, YES, c.names[n].1) else
    var k := Find(c.counts, key);
    if (if k < |c.counts| then c.counts[k].1 else 0) >= c.threshold.value || prepare == Some(true)
    then (c.(idx := c.idx + 1), SHOULD, c.idx)
    else (c, NO, 0)
  }

  function Cleared(c: Cache): (Cache, bool) {
    if c.names != [] then (c.(counts := [], names := [], toFlush := [None]), true)
    else (c.(counts := []), false)
  }

  predicate VoidsPlans(results: seq<PGresult>) {
    exists i :: 0 <= i < |results| && results[i].status == COMMAND_OK && results[i].dropsOrRollsBack
  }

  function Discarded(c: Cache, prep: Prepare, results: seq<PGresult>): (Cache, bool) {
    if (c.names != [] || prep == SHOULD) && VoidsPlans(results) then Cleared(c) else (c, false)
  }

  predicate Valid(results: seq<PGresult>) {
    |results| == 1 && (results[0].status == COMMAND_OK || results[0].status == TUPLES_OK)
  }

  function Rotated(c: Cache): Cache {
    var d := if |c.counts| > c.preparedMax then c.(counts := c.counts[1..]) else c;
    if |d.names| > d.preparedMax
    then d.(names := d.names[1..], toFlush := d.toFlush + [Some(d.names[0].1)])
    else d
  }

  /** maybe_add_to_cache; the flag says that a new key was added. */
  function Added(c: Cache, key: Key, prep: Prepare, name: Name): (Cache, bool) {
    if c.threshold.None? then (c, false) else
    var k := Find(c.counts, key);
    var n := Find(c.names, key);
    if k < |c.counts| then
      if prep == SHOULD
      then (c.(counts := Without(c.counts, key), names := Put(c.names, key, name)), false)
      else (c.(counts := Without(c.counts, key) + [(key, c.counts[k].1 + 1)]), false)
    else if n < |c.names| then (c.(names := Without(c.names, key) + [c.names[n]]), false)
    else if prep == SHOULD then (c.(names := c.names + [(key, name)]), true)
    else (c.(counts := c.counts + [(key, 1)]), true)
  }

  function Validated(c: Cache, key: Key, prep: Prepare, results: seq<PGresult>): Cache {
    var (d, discard) := Discarded(c, prep, results);
    if discard then d
    else if !Valid(results) then d.(names := Without(d.names, key), counts := Without(d.counts, key))
    else Rotated(d)
  }

  // ---------- the session ----------

  /** `server` holds the statements prepared in the session; the other two are logs. */
  datatype Session = Session(cache: Cache, server: set<Name>, issued: seq<Name>, uses: seq<Key>)

  datatype Outcome = PrepareFails | Ran(results: seq<PGresult>)

  datatype Event =
    | Exec(key: Key, prepare: Option<bool>, outcome: Outcome)
    | Rollback     // rollback(), or a transaction block that rolls back

  function InitSession(threshold: Option<int>, preparedMax: nat): Session {
    Session(Cache(threshold, preparedMax, [], [], 0, []), {}, [], [])
  }

  /** maintain_gen: the server side of the commands in the queue. */
  function Flushed(server: set<Name>, q: seq<Option<Name>>): set<Name> {
    if q == [] then server
    else Flushed(if q[0].Some? then server - {q[0].value} else {}, q[1..])
  }

  function Maintained(s: Session): Session {
    s.(server := Flushed(s.server, s.cache.toFlush), cache := s.cache.(toFlush := []))
  }

  /** _check_results of the cursor: otherwise the query raises. */
  predicate Passes(results: seq<PGresult>) {
    results != [] && forall i :: 0 <= i < |results| ==> results[i].status != ERROR
  }

  /** The session up to the point where execute raises or goes on to maintain_gen. */
  function Executed(s: Session, key: Key, prepare: Option<bool>, outcome: Outcome): Session {
    var (c1, prep, name) := Get(s.cache, key, prepare);
    var s1 := s.(cache := c1, issued := if prep == SHOULD then s.issued + [name] else s.issued);
    if outcome.PrepareFails? then s1 else
    var (c2, added) := Added(c1, key, prep, name);
    s1.(server := if prep == SHOULD then s.server + {name} else s.server,
        uses := if c1.threshold.Some? then s.uses + [key] else s.uses,
        cache := if added then Validated(c2, key, prep, outcome.results) else c2)
  }

  function Step(s: Session, e: Event): Session {
    match e
    case Exec(key, prepare, outcome) =>
      var t := Executed(s, key, prepare, outcome);
      if outcome.Ran? && Passes(outcome.results) then Maintained(t) else t
    case Rollback => Maintained(s.(cache := Cleared(s.cache).0))
  }

  function Run(s: Session, es: seq<Event>): Session
    decreases |es|
  {
    if es == [] then s else Run(Step(s, es[0]), es[1..])
  }

  /** A PREPARE can fail only if one is sent. */
  predicate Possible(s: Session, e: Event) {
    e.Exec? && e.outcome.PrepareFails? ==> Get(s.cache, e.key, e.prepare).1 == SHOULD
  }

  /** Not a query that raises after the server has said that cached plans are void. */
  predicate Harmless(e: Event) {
    e.Exec? && e.outcome.Ran? && VoidsPlans(e.outcome.results) ==> Passes(e.outcome.results)
  }

  ghost predicate PossibleRun(s: Session, es: seq<Event>)
    decreases |es|
  {
    es != [] ==> Possible(s, es[0]) && PossibleRun(Step(s, es[0]), es[1..])
  }

  // ---------- recency ----------

  /** The last time a key was used. */
  function LastUse(uses: seq<Key>, k: Key): (r: int)
    ensures -1 <= r < |uses|
    ensures r >= 0 ==> uses[r] == k
    ensures forall i :: r < i < |uses| ==> uses[i] != k
  {
    if uses == [] then -1
    else if uses[|uses| - 1] == k then |uses| - 1
    else LastUse(uses[..|uses| - 1], k)
  }

  /** The entries stand in the order of the last use of their keys. */
  ghost predicate Ordered<V>(d: seq<(Key, V)>, uses: seq<Key>) {
    && (forall i, j :: 0 <= i < j < |d| ==> LastUse(uses, d[i].0) < LastUse(uses, d[j].0))
    && (forall i :: 0 <= i < |d| ==> d[i].0 in uses)
  }

  lemma HasWithout<V>(d: seq<(Key, V)>, k: Key, x: Key)
    requires forall i, j :: 0 <= i < j < |d| ==> d[i].0 != d[j].0
    ensures Has(Without(d, k), x) <==> Has(d, x) && x != k
  {
    var i := Find(d, k);
    var r := Without(d, k);
    if Has(d, x) && x != k {
      var j := Find(d, x);
      assert r[if j < i then j else j - 1].0 == x;
    }
    if Has(r, x) {
      var j := Find(r, x);
      assert d[if j < i then j else j + 1].0 == x;
    }
  }

  lemma OrderedWithout<V>(d: seq<(Key, V)>, k: Key, uses: seq<Key>)
    requires Ordered(d, uses)
    ensures Ordered(Without(d, k), uses)
  {
    var i := Find(d, k);
    if i < |d| { OrderedCut(d, i, uses); }
  }

  lemma OrderedCut<V>(d: seq<(Key, V)>, i: nat, uses: seq<Key>)
    requires i < |d| && Ordered(d, uses)
    ensures Ordered(d[..i] + d[i + 1..], uses)
  {
    var r := d[..i] + d[i + 1..];
    forall a, b | 0 <= a < b < |r| ensures LastUse(uses, r[a].0) < LastUse(uses, r[b].0) {
      assert r[a] == d[if a < i then a else a + 1];
      assert r[b] == d[if b < i then b else b + 1];
    }
  }

  lemma WithoutIff<V>(d: seq<(Key, V)>, k: Key)
    requires forall i, j :: 0 <= i < j < |d| ==> d[i].0 != d[j].0
    ensures forall x :: Has(Without(d, k), x) <==> Has(d, x) && x != k
  {
    forall x ensures Has(Without(d, k), x) <==> Has(d, x) && x != k {
      HasWithout(d, k, x);
    }
  }

  lemma HasSnoc<V>(d: seq<(Key, V)>, k: Key, v: V)
    ensures forall x :: Has(d + [(k, v)], x) <==> Has(d, x) || x == k
  {
    forall x ensures Has(d + [(k, v)], x) <==> Has(d, x) || x == k {
      if Has(d, x) {
        assert (d + [(k, v)])[Find(d, x)].0 == x;
      } else if x == k {
        assert (d + [(k, v)])[|d|].0 == x;
      }
    }
  }

  lemma OrderedSnoc<V>(d: seq<(Key, V)>, k: Key, v: V, uses: seq<Key>)
    requires Ordered(d, uses) && forall i :: 0 <= i < |d| ==> d[i].0 != k
    ensures Ordered(d, uses + [k]) && Ordered(d + [(k, v)], uses + [k])
  {
    assert forall i :: 0 <= i < |d| ==> LastUse(uses + [k], d[i].0) == LastUse(uses, d[i].0);
  }

  /** One more use of `k` keeps the order of a dictionary that does not hold it, and it may now stand last. */
  lemma OrderedUse<V>(d: seq<(Key, V)>, k: Key, v: V, uses: seq<Key>)
    requires Ordered(d, uses) && !Has(d, k)
    ensures Ordered(d, uses + [k]) && Ordered(d + [(k, v)], uses + [k])
    ensures forall x :: Has(d + [(k, v)], x) <==> Has(d, x) || x == k
  {
    OrderedSnoc(d, k, v, uses);
    HasSnoc(d, k, v);
  }

  lemma OrderedTail<V>(d: seq<(Key, V)>, uses: seq<Key>)
    requires d != [] && Ordered(d, uses)
    ensures Ordered(d[1..], uses)
    ensures forall x :: Has(d[1..], x) ==> Has(d, x)
  {
    forall x ensures Has(d[1..], x) ==> Has(d, x) {
    }
  }

  ghost predicate Apart(counts: seq<(Key, int)>, names: seq<(Key, Name)>) {
    forall k :: Has(counts, k) ==> !Has(names, k)
  }

  /** Both dictionaries are in the order of use, and no key is in both. */
  ghost predicate CacheOrdered(c: Cache, uses: seq<Key>) {
    Ordered(c.counts, uses) && Ordered(c.names, uses) && Apart(c.counts, c.names)
  }

  /** A counted key moves to the names. */
  lemma CountedToNames(c: Cache, key: Key, name: Name, uses: seq<Key>)
    requires CacheOrdered(c, uses) && Has(c.counts, key)
    ensures CacheOrdered(c.(counts := Without(c.counts, key), names := c.names + [(key, name)]), uses + [key])
  {
    OrderedWithout(c.counts, key, uses);
    WithoutIff(c.counts, key);
    OrderedUse(Without(c.counts, key), key, 0, uses);
    OrderedUse(c.names, key, name, uses);
  }

  /** A counted key is counted again. */
  lemma CountedAgain(c: Cache, key: Key, n: int, uses: seq<Key>)
    requires CacheOrdered(c, uses) && Has(c.counts, key)
    ensures CacheOrdered(c.(counts := Without(c.counts, key) + [(key, n)]), uses + [key])
  {
    OrderedWithout(c.counts, key, uses);
    WithoutIff(c.counts, key);
    OrderedUse(Without(c.counts, key), key, n, uses);
    OrderedUse(c.names, key, 0, uses);
  }

  lemma CountedOrdered(c: Cache, key: Key, prep: Prepare, name: Name, uses: seq<Key>)
    requires CacheOrdered(c, uses) && c.threshold.Some? && Has(c.counts, key)
    ensures CacheOrdered(Added(c, key, prep, name).0, uses + [key])
  {
    if prep == SHOULD {
      CountedToNames(c, key, name, uses);
      assert Added(c, key, prep, name).0 == c.(counts := Without(c.counts, key), names := c.names + [(key, name)]);
    } else {
      var n := c.counts[Find(c.counts, key)].1 + 1;
      CountedAgain(c, key, n, uses);
      assert Added(c, key, prep, name).0 == c.(counts := Without(c.counts, key) + [(key, n)]);
    }
  }

  lemma NamedOrdered(c: Cache, key: Key, prep: Prepare, name: Name, uses: seq<Key>)
    requires CacheOrdered(c, uses) && c.threshold.Some? && !Has(c.counts, key) && Has(c.names, key)
    ensures CacheOrdered(Added(c, key, prep, name).0, uses + [key])
  {
    var n := Find(c.names, key);
    OrderedUse(c.counts, key, 0, uses);
    OrderedWithout(c.names, key, uses);
    WithoutIff(c.names, key);
    OrderedUse(Without(c.names, key), key, c.names[n].1, uses);
    assert c.names[n] == (key, c.names[n].1);
  }

  lemma NewOrdered(c: Cache, key: Key, prep: Prepare, name: Name, uses: seq<Key>)
    requires CacheOrdered(c, uses) && c.threshold.Some? && !Has(c.counts, key) && !Has(c.names, key)
    ensures CacheOrdered(Added(c, key, prep, name).0, uses + [key])
  {
    OrderedUse(c.counts, key, 1, uses);
    OrderedUse(c.names, key, name, uses);
  }

  lemma AddedOrdered(c: Cache, key: Key, prep: Prepare, name: Name, uses: seq<Key>)
    requires CacheOrdered(c, uses) && c.threshold.Some?
    ensures CacheOrdered(Added(c, key, prep, name).0, uses + [key])
  {
    if Has(c.counts, key) { CountedOrdered(c, key, prep, name, uses); }
    else if Has(c.names, key) { NamedOrdered(c, key, prep, name, uses); }
    else { NewOrdered(c, key, prep, name, uses); }
  }

  lemma RotatedOrdered(c: Cache, uses: seq<Key>)
    requires CacheOrdered(c, uses)
    ensures CacheOrdered(Rotated(c), uses)
  {
    if c.counts != [] { OrderedTail(c.counts, uses); }
    if c.names != [] { OrderedTail(c.names, uses); }
  }

  lemma ValidatedOrdered(c: Cache, key: Key, prep: Prepare, results: seq<PGresult>, uses: seq<Key>)
    requires CacheOrdered(c, uses)
    ensures CacheOrdered(Validated(c, key, prep, results), uses)
  {
    var (d, discard) := Discarded(c, prep, results);
    assert CacheOrdered(d, uses);
    OrderedWithout(d.names, key, uses);
    OrderedWithout(d.counts, key, uses);
    WithoutIff(d.names, key);
    WithoutIff(d.counts, key);
    RotatedOrdered(d, uses);
  }

  /** An eviction removes the least recently used key of its dictionary, and queues its statement. */
  lemma EvictsLeastRecent(c: Cache, uses: seq<Key>)
    requires CacheOrdered(c, uses)
    ensures var d := Rotated(c);
            && (|c.counts| > c.preparedMax ==>
                 && d.counts == c.counts[1..]
                 && forall i :: 1 <= i < |c.counts| ==> LastUse(uses, c.counts[0].0) < LastUse(uses, c.counts[i].0))
            && (|c.names| > c.preparedMax ==>
                 && d.names == c.names[1..] && d.toFlush == c.toFlush + [Some(c.names[0].1)]
                 && forall i :: 1 <= i < |c.names| ==> LastUse(uses, c.names[0].0) < LastUse(uses, c.names[i].0))
            && (|c.counts| <= c.preparedMax ==> d.counts == c.counts)
            && (|c.names| <= c.preparedMax ==> d.names == c.names && d.toFlush == c.toFlush)
  {
  }

  // ---------- the size of the cache ----------

  ghost predicate Small(c: Cache) {
    |c.counts| <= c.preparedMax && |c.counts| + |c.names| <= 2 * c.preparedMax
  }

  /** Validation follows only a new key, yet it keeps both bounds. */
  lemma ExecutedSmall(c: Cache, key: Key, prep: Prepare, name: Name, results: seq<PGresult>)
    requires Small(c)
    ensures var (d, added) := Added(c, key, prep, name);
            Small(if added then Validated(d, key, prep, results) else d)
  {
    var (d, added) := Added(c, key, prep, name);
    if added && !Discarded(d, prep, results).1 && !Valid(results) {
      if prep == SHOULD {
        assert d.names[|d.names| - 1].0 == key;
      } else {
        assert d.counts[|d.counts| - 1].0 == key;
      }
    }
  }

  // ---------- agreement with the server ----------

  /** Every name issued is new, and below the next one. */
  ghost predicate IssuedInOrder(issued: seq<Name>, idx: nat) {
    && (forall i :: 0 <= i < |issued| ==> issued[i] < idx)
    && (forall i, j :: 0 <= i < j < |issued| ==> issued[i] < issued[j])
  }

  /** What the cache says is prepared, is; names are never reused. */
  ghost predicate Agrees(s: Session) {
    && (forall i :: 0 <= i < |s.cache.names| ==> s.cache.names[i].1 in s.server)
    && IssuedInOrder(s.issued, s.cache.idx)
  }

  lemma {:induction false} FlushedKeeps(server: set<Name>, q: seq<Option<Name>>, n: Name)
    ensures n in Flushed(server, q) <==> n in server && None !in q && Some(n) !in q
  {
    if q != [] {
      assert q == [q[0]] + q[1..];
      FlushedKeeps(if q[0].Some? then server - {q[0].value} else {}, q[1..], n);
    }
  }

  /** Sending the queue keeps the agreement exactly when it does not hold a DEALLOCATE ALL or nothing is cached. */
  lemma FlushAgreesIff(s: Session)
    requires Agrees(s) && forall i :: 0 <= i < |s.cache.names| ==> Some(s.cache.names[i].1) !in s.cache.toFlush
    ensures Agrees(Maintained(s)) <==> (None !in s.cache.toFlush || s.cache.names == [])
  {
    var t := Maintained(s);
    forall n ensures n in t.server <==> n in s.server && None !in s.cache.toFlush && Some(n) !in s.cache.toFlush {
      FlushedKeeps(s.server, s.cache.toFlush, n);
    }
    assert t.cache.names == s.cache.names;
    if Agrees(t) && s.cache.names != [] {
      assert s.cache.names[0].1 in t.server;
    }
  }

  ghost predicate NamesDistinct(names: seq<(Key, Name)>, server: set<Name>, idx: nat) {
    && (forall i :: 0 <= i < |names| ==> names[i].1 in server && names[i].1 < idx)
    && (forall i, j :: 0 <= i < j < |names| ==> names[i].1 != names[j].1)
  }

  lemma NamesMoved(names: seq<(Key, Name)>, server: set<Name>, idx: nat, n: nat)
    requires NamesDistinct(names, server, idx) && n < |names|
    ensures NamesDistinct(names[..n] + names[n + 1..] + [names[n]], server, idx)
  {
  }

  lemma NamesGrown(names: seq<(Key, Name)>, server: set<Name>, idx: nat, key: Key)
    requires NamesDistinct(names, server, idx)
    ensures NamesDistinct(names + [(key, idx)], server + {idx}, idx + 1)
  {
  }

  lemma AddedShould(c: Cache, server: set<Name>, idx: nat, key: Key)
    requires NamesDistinct(c.names, server, idx) && c.idx == idx + 1 && c.threshold.Some? && !Has(c.names, key)
    ensures NamesDistinct(Added(c, key, SHOULD, idx).0.names, server + {idx}, idx + 1)
  {
    NamesGrown(c.names, server, idx, key);
  }

  lemma AddedOther(c: Cache, server: set<Name>, key: Key, prep: Prepare, name: Name)
    requires NamesDistinct(c.names, server, c.idx) && prep != SHOULD && (Has(c.counts, key) ==> !Has(c.names, key))
    ensures NamesDistinct(Added(c, key, prep, name).0.names, server, c.idx)
  {
    var n := Find(c.names, key);
    if n < |c.names| { NamesMoved(c.names, server, c.idx, n); }
  }

  /** maybe_add_to_cache keeps the cached names distinct and on the server. */
  lemma AddedNames(s: Session, key: Key, prepare: Option<bool>)
    requires NamesDistinct(s.cache.names, s.server, s.cache.idx) && CacheOrdered(s.cache, s.uses)
    ensures var (c1, prep, name) := Get(s.cache, key, prepare);
            var (c2, added) := Added(c1, key, prep, name);
            NamesDistinct(c2.names, if prep == SHOULD then s.server + {name} else s.server, c2.idx)
  {
    var (c1, prep, name) := Get(s.cache, key, prepare);
    if prep == SHOULD {
      AddedShould(c1, s.server, name, key);
    } else {
      AddedOther(c1, s.server, key, prep, name);
    }
  }

  /** What can be in the queue after one validated execution that started with an empty queue. */
  lemma ValidatedNames(c: Cache, server: set<Name>, key: Key, prep: Prepare, results: seq<PGresult>)
    requires NamesDistinct(c.names, server, c.idx) && c.toFlush == []
    ensures var d := Validated(c, key, prep, results);
            && NamesDistinct(d.names, server, d.idx) && d.idx == c.idx
            && QueueShape(d)
            && (d.toFlush != [] ==> Valid(results) || VoidsPlans(results))
  {
    var (d, discard) := Discarded(c, prep, results);
    if !discard && Valid(results) && |d.names| > d.preparedMax {
      assert Rotated(d).toFlush == [Some(c.names[0].1)];
    }
  }

  /** A session between two statements: nothing queued, and cache, server and logs agree. */
  ghost predicate Settled(s: Session) {
    && s.cache.toFlush == []
    && CacheOrdered(s.cache, s.uses) && Small(s.cache)
    && NamesDistinct(s.cache.names, s.server, s.cache.idx)
    && IssuedInOrder(s.issued, s.cache.idx)
  }

  lemma FlushOne(s: Session)
    requires NamesDistinct(s.cache.names, s.server, s.cache.idx)
    requires QueueShape(s.cache)
    ensures NamesDistinct(Maintained(s).cache.names, Maintained(s).server, s.cache.idx)
  {
    forall i | 0 <= i < |s.cache.names| ensures s.cache.names[i].1 in Maintained(s).server {
      FlushedKeeps(s.server, s.cache.toFlush, s.cache.names[i].1);
    }
  }

  lemma ExecutedOrdered(s: Session, key: Key, prepare: Option<bool>, results: seq<PGresult>)
    requires CacheOrdered(s.cache, s.uses) && Small(s.cache)
    ensures var t := Executed(s, key, prepare, Ran(results)); CacheOrdered(t.cache, t.uses) && Small(t.cache)
  {
    var (c1, prep, name) := Get(s.cache, key, prepare);
    var (c2, added) := Added(c1, key, prep, name);
    if c1.threshold.Some? { AddedOrdered(c1, key, prep, name, s.uses); }
    ExecutedSmall(c1, key, prep, name, results);
    if added { ValidatedOrdered(c2, key, prep, results, s.uses + [key]); }
  }

  ghost predicate QueueShape(c: Cache) {
    || c.toFlush == []
    || (c.toFlush == [None] && c.names == [])
    || (exists n :: c.toFlush == [Some(n)] && forall i :: 0 <= i < |c.names| ==> c.names[i].1 != n)
  }

  lemma ExecutedNames(s: Session, key: Key, prepare: Option<bool>, results: seq<PGresult>)
    requires NamesDistinct(s.cache.names, s.server, s.cache.idx) && CacheOrdered(s.cache, s.uses) && s.cache.toFlush == []
    ensures var t := Executed(s, key, prepare, Ran(results));
            && NamesDistinct(t.cache.names, t.server, t.cache.idx) && QueueShape(t.cache)
            && (t.cache.toFlush != [] ==> Valid(results) || VoidsPlans(results))
  {
    var (c1, prep, name) := Get(s.cache, key, prepare);
    var (c2, added) := Added(c1, key, prep, name);
    AddedNames(s, key, prepare);
    if added {
      ValidatedNames(c2, if prep == SHOULD then s.server + {name} else s.server, key, prep, results);
    }
  }

  lemma ExecutedIssued(s: Session, key: Key, prepare: Option<bool>, results: seq<PGresult>)
    requires IssuedInOrder(s.issued, s.cache.idx)
    ensures var t := Executed(s, key, prepare, Ran(results)); IssuedInOrder(t.issued, t.cache.idx)
  {
    var t := Executed(s, key, prepare, Ran(results));
    var (c1, prep, name) := Get(s.cache, key, prepare);
    assert t.cache.idx == c1.idx;
    assert t.issued == if prep == SHOULD then s.issued + [name] else s.issued;
  }

  /** Settled but for what the queue still holds. */
  ghost predicate Ready(s: Session) {
    && CacheOrdered(s.cache, s.uses) && Small(s.cache) && IssuedInOrder(s.issued, s.cache.idx)
    && NamesDistinct(s.cache.names, s.server, s.cache.idx) && QueueShape(s.cache)
  }

  lemma ReadySettled(s: Session)
    requires Ready(s)
    ensures Settled(Maintained(s)) && (s.cache.toFlush == [] ==> Settled(s))
  {
    FlushOne(s);
  }

  lemma ExecutedReady(s: Session, key: Key, prepare: Option<bool>, results: seq<PGresult>)
    requires Settled(s)
    ensures var t := Executed(s, key, prepare, Ran(results));
            Ready(t) && (t.cache.toFlush != [] ==> Valid(results) || VoidsPlans(results))
  {
    ExecutedOrdered(s, key, prepare, results);
    ExecutedNames(s, key, prepare, results);
    ExecutedIssued(s, key, prepare, results);
  }

  lemma ExecSettled(s: Session, key: Key, prepare: Option<bool>, results: seq<PGresult>)
    requires Settled(s) && (VoidsPlans(results) ==> Passes(results))
    ensures Settled(Step(s, Exec(key, prepare, Ran(results))))
  {
    var t := Executed(s, key, prepare, Ran(results));
    ExecutedReady(s, key, prepare, results);
    ReadySettled(t);
    StepRan(s, key, prepare, results, t);
    if !Passes(results) { assert !Valid(results) && t.cache.toFlush == []; }
  }

  lemma StepRan(s: Session, key: Key, prepare: Option<bool>, results: seq<PGresult>, t: Session)
    requires t == Executed(s, key, prepare, Ran(results))
    ensures Step(s, Exec(key, prepare, Ran(results))) == if Passes(results) then Maintained(t) else t
  {
  }

  lemma StepSettled(s: Session, e: Event)
    requires Settled(s) && Possible(s, e) && Harmless(e)
    ensures Settled(Step(s, e))
  {
    match e
    case Exec(key, prepare, Ran(results)) => ExecSettled(s, key, prepare, results);
    case Exec(_, _, PrepareFails) =>
    case Rollback => FlushOne(s.(cache := Cleared(s.cache).0));
  }

  lemma {:induction false} RunSettled(s: Session, es: seq<Event>)
    requires Settled(s) && PossibleRun(s, es) && forall i :: 0 <= i < |es| ==> Harmless(es[i])
    ensures Settled(Run(s, es))
    decreases |es|
  {
    if es != [] {
      StepSettled(s, es[0]);
      RunSettled(Step(s, es[0]), es[1..]);
    }
  }

  /**
   In a session from its start on, whenever the cache answers YES the name is still prepared on the
   server; a new name was never issued before; and the cache is within its bounds.
   */
  lemma CacheAgreesWithServer(threshold: Option<int>, preparedMax: nat, es: seq<Event>, key: Key, prepare: Option<bool>)
    requires PossibleRun(InitSession(threshold, preparedMax), es)
    requires forall i :: 0 <= i < |es| ==> Harmless(es[i])
    ensures var s := Run(InitSession(threshold, preparedMax), es);
            var (_, prep, name) := Get(s.cache, key, prepare);
            && (prep == YES ==> name in s.server)
            && (prep == SHOULD ==> name !in s.issued)
            && (forall i, j :: 0 <= i < j < |s.issued| ==> s.issued[i] != s.issued[j])
            && |s.cache.counts| <= preparedMax && |s.cache.counts| + |s.cache.names| <= 2 * preparedMax
  {
    RunSettled(InitSession(threshold, preparedMax), es);
    RunKeepsMax(InitSession(threshold, preparedMax), es);
  }

  lemma StepKeepsMax(s: Session, e: Event)
    ensures Step(s, e).cache.preparedMax == s.cache.preparedMax
  {
  }

  lemma {:induction false} RunKeepsMax(s: Session, es: seq<Event>)
    ensures Run(s, es).cache.preparedMax == s.cache.preparedMax
    decreases |es|
  {
    if es != [] {
      StepKeepsMax(s, es[0]);
      RunKeepsMax(Step(s, es[0]), es[1..]);
    }
  }

  /** A multi-statement query that drops an object and then fails leaves a DEALLOCATE ALL behind, which a later query sends. */
  lemma RaiseAfterDropBreaksAgreement()
    ensures var s0 := InitSession(Some(0), 100);
            var s1 := Step(s0, Exec(0, None, Ran([PGresult(TUPLES_OK, false)])));
            var s2 := Step(s1, Exec(1, Some(false), Ran([PGresult(COMMAND_OK, true), PGresult(ERROR, false)])));
            var s3 := Step(s2, Exec(0, None, Ran([PGresult(TUPLES_OK, false)])));
            var (_, prep, name) := Get(s3.cache, 0, None);
            prep == YES && name !in s3.server
  {
    var s0 := InitSession(Some(0), 100);
    var ok := [PGresult(TUPLES_OK, false)];
    var s1 := Step(s0, Exec(0, None, Ran(ok)));
    FreshExec(s0);
    var dropped := [PGresult(COMMAND_OK, true), PGresult(ERROR, false)];
    DroppingExec(s1, dropped);
    var s2 := Step(s1, Exec(1, Some(false), Ran(dropped)));
    FreshExec(s2);
  }

  lemma FreshExec(s: Session)
    requires s.cache.threshold == Some(0) && s.cache.preparedMax > 0 && s.cache.counts == [] && s.cache.names == []
    requires s.cache.toFlush == [] || s.cache.toFlush == [None]
    ensures var t := Step(s, Exec(0, None, Ran([PGresult(TUPLES_OK, false)])));
            && t.cache == s.cache.(names := [(0, s.cache.idx)], idx := s.cache.idx + 1, toFlush := [])
            && t.server == if s.cache.toFlush == [] then s.server + {s.cache.idx} else {}
  {
    var ok := [PGresult(TUPLES_OK, false)];
    var (c1, prep, name) := Get(s.cache, 0, None);
    var (c2, added) := Added(c1, 0, prep, name);
    assert c2.names == [(0, s.cache.idx)];
    assert Validated(c2, 0, prep, ok) == c2;
    assert Executed(s, 0, None, Ran(ok)).cache.toFlush == s.cache.toFlush;
    if s.cache.toFlush != [] {
      assert s.cache.toFlush[1..] == [] && Flushed({}, s.cache.toFlush[1..]) == {};
      assert Flushed(s.server + {s.cache.idx}, s.cache.toFlush) == {};
    }
  }

  lemma DroppingExec(s: Session, dropped: seq<PGresult>)
    requires dropped == [PGresult(COMMAND_OK, true), PGresult(ERROR, false)]
    requires s.cache.threshold == Some(0) && s.cache.counts == [] && |s.cache.names| == 1
    requires s.cache.names[0].0 == 0
    ensures var t := Step(s, Exec(1, Some(false), Ran(dropped)));
            t.cache == s.cache.(counts := [], names := [], toFlush := [None])
  {
    assert dropped[0].dropsOrRollsBack && dropped[1].status == ERROR;
    assert VoidsPlans(dropped) && !Passes(dropped);
  }

  // ---------- the objects ----------

  /** The statements prepared in the server session. */
  class ServerSession {
    var prepared: set<Name>

    constructor ()
      ensures prepared == {}
    {
      prepared := {};
    }

    /** _deallocate */
    method Deallocate(name: Option<Name>)
      modifies this
      ensures prepared == if name.Some? then old(prepared) - {name.value} else {}
    {
      if name.None? { prepared := {}; } else { prepared := prepared - {name.value}; }
    }
  }

  class PrepareManager {
    const threshold: Option<int>
    const preparedMax: nat
    var counts: seq<(Key, int)>
    var names: seq<(Key, Name)>
    var preparedIdx: nat
    var toFlush: seq<Option<Name>>

    function View(): Cache
      reads this
    {
      Cache(threshold, preparedMax, counts, names, preparedIdx, toFlush)
    }

    constructor (threshold: Option<int>, preparedMax: nat)
      ensures View() == InitSession(threshold, preparedMax).cache
    {
      this.threshold, this.preparedMax := threshold, preparedMax;
      counts, names, preparedIdx, toFlush := [], [], 0, [];
    }

    method GetPrepared(key: Key, prepare: Option<bool>) returns (prep: Prepare, name: Name)
      modifies this`preparedIdx
      ensures (View(), prep, name) == Get(old(View()), key, prepare)
    {
      if prepare == Some(false) || threshold.None? { return NO, 0; }
      var n := Find(names, key);
      if n < |names| { return YES, names[n].1; }
      var k := Find(counts, key);
      var count := if k < |counts| then counts[k].1 else 0;
      if count >= threshold.value || prepare == Some(true) {
        prep, name := SHOULD, preparedIdx;
        preparedIdx := preparedIdx + 1;
      } else {
        prep, name := NO, 0;
      }
    }

    method ShouldDiscard(prep: Prepare, results: seq<PGresult>) returns (r: bool)
      modifies this
      ensures (View(), r) == Discarded(old(View()), prep, results)
    {
      r := false;
      if names != [] || prep == SHOULD {
        for i := 0 to |results|
          invariant View() == old(View())
          invariant forall j :: 0 <= j < i ==> !(results[j].status == COMMAND_OK && results[j].dropsOrRollsBack)
        {
          if results[i].status == COMMAND_OK && results[i].dropsOrRollsBack {
            r := Clear();
            return;
          }
        }
      }
    }

    method Rotate()
      modifies this
      ensures View() == Rotated(old(View()))
    {
      if |counts| > preparedMax {
        counts := counts[1..];
      }
      if |names| > preparedMax {
        toFlush := toFlush + [Some(names[0].1)];
        names := names[1..];
      }
    }

    method MaybeAddToCache(key: Key, prep: Prepare, name: Name) returns (added: bool)
      modifies this
      ensures (View(), added) == Added(old(View()), key, prep, name)
    {
      if threshold.None? { return false; }
      var k := Find(counts, key);
      var n := Find(names, key);
      if k < |counts| {
        if prep == SHOULD {
          counts := Without(counts, key);
          names := Put(names, key, name);
        } else {
          counts := Without(counts, key) + [(key, counts[k].1 + 1)];
        }
        added := false;
      } else if n < |names| {
        names := Without(names, key) + [names[n]];
        added := false;
      } else {
        if prep == SHOULD {
          names := names + [(key, name)];
        } else {
          counts := counts + [(key, 1)];
        }
        added := true;
      }
    }

    method Validate(key: Key, prep: Prepare, results: seq<PGresult>)
      modifies this
      ensures View() == Validated(old(View()), key, prep, results)
    {
      var discard := ShouldDiscard(prep, results);
      if discard { return; }
      if Valid(results) {
        Rotate();
      } else {
        names := Without(names, key);
        counts := Without(counts, key);
      }
    }

    method Clear() returns (r: bool)
      modifies this
      ensures (View(), r) == Cleared(old(View()))
    {
      counts := [];
      r := names != [];
      if r {
        names, toFlush := [], [None];
      }
    }

    /** maintain_gen */
    method Maintain(server: ServerSession)
      modifies this`toFlush, server
      ensures View() == old(View()).(toFlush := [])
      ensures server.prepared == Flushed(old(server.prepared), old(toFlush))
    {
      while toFlush != []
        invariant View() == old(View()).(toFlush := toFlush)
        invariant Flushed(server.prepared, toFlush) == Flushed(old(server.prepared), old(toFlush))
        decreases |toFlush|
      {
        var name := toFlush[0];
        toFlush := toFlush[1..];
        server.Deallocate(name);
      }
    }

    /** _maybe_prepare_gen and the end of _execute_gen; false if the query raises. */
    method Execute(server: ServerSession, key: Key, prepare: Option<bool>, outcome: Outcome) returns (completes: bool)
      modifies this, server
      ensures var t := Step(Session(old(View()), old(server.prepared), [], []), Exec(key, prepare, outcome));
              View() == t.cache && server.prepared == t.server
      ensures completes <==> outcome.Ran? && Passes(outcome.results)
    {
      var prep, name := GetPrepared(key, prepare);
      if outcome.PrepareFails? { return false; }
      if prep == SHOULD {
        server.prepared := server.prepared + {name};
      }
      var added := MaybeAddToCache(key, prep, name);
      if added {
        Validate(key, prep, outcome.results);
      }
      completes := Passes(outcome.results);
      if completes {
        Maintain(server);
      }
    }
  }
}
