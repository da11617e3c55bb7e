/** The shared state of a connection pool and its steps. */
module PoolModel {

  // Every block that the pool runs under its lock is one step; so is every action a client or a
  // worker takes on its own. A run is any sequence of enabled steps, which covers every
  // interleaving of clients, workers and scheduler. `P` is the identity of a position in the
  // waiting queue, `Conn` that of a connection.

  import opened Util

  type Conn = nat

  /** The two fields of a waiting position. */
  datatype Slot = Slot(conn: Option<Conn>, error: bool)

  datatype State<P(==)> = State(
    minSize: int,
    maxSize: int,
    maxWaiting: int,
    nconns: int,
    nconnsMin: int,
    growing: bool,
    pool: seq<Conn>,
    waiting: seq<P>,
    slots: map<P, Slot>,       // positions whose client has not left wait() yet
    held: set<Conn>,           // connections held by clients
    transit: set<Conn>,        // being returned, checked, or added by a task that does not grow the pool
    growTransit: set<Conn>,    // being added by a growing task
    adds: nat,                 // live AddConnection tasks that do not grow the pool
    growAdds: nat,             // live growing AddConnection tasks, before they connect
    growPost: nat,             // growing tasks between handing over the connection and the second block
    made: nat)                // every connection ever made is below this number

  datatype Event<P> =
    | Request(client: P, expired: bool)
    | TimeOut(client: P)
    | Leave(client: P)
    | Return(conn: Conn)
    | Discard(conn: Conn)
    | Deliver(conn: Conn)
    | Store(conn: Conn)
    | Connected(grows: bool)
    | GiveUp(grows: bool)
    | GrowMore
    | Shrink
    | Check
    | Resize(newMin: int, newMax: int, ngrow: nat)

  /** What the critical section of getconn decides. */
  datatype Ready = Expired | TooMany | Taken(conn: Conn) | MustWait

  // ---------- construction ----------

  function CheckSize(minSize: int, maxSize: Option<int>): (r: Result<(int, int), string>)
    ensures r.Ok? <==>
      && 0 <= minSize
      && (maxSize.Some? ==> minSize <= maxSize.value)
      && (minSize > 0 || (maxSize.Some? && maxSize.value > 0))
    ensures r.Ok? ==> 0 <= r.value.0 <= r.value.1 && 0 < r.value.1
  {
    var max := if maxSize.None? then minSize else maxSize.value;
    if minSize < 0 then Err("min_size cannot be negative")
    else if max < minSize then Err("max_size must be greater or equal than min_size")
    else if minSize == 0 && max == 0 then Err("if min_size is 0 max_size must be greater or than 0")
    else Ok((minSize, max))
  }

  /** A pool that has just been opened: one AddConnection queued for each of the min_size connections. */
  function Init<P>(minSize: nat, maxSize: nat, maxWaiting: int): State<P> {
    State(minSize, maxSize, maxWaiting, minSize, minSize, false, [], [], map[], {}, {}, {}, minSize, 0, 0, 0)
  }

  // ---------- the blocks run under the lock ----------

  function GetReady<P>(s: State<P>, expired: bool): Ready {
    if expired then Expired
    else if s.pool != [] then Taken(s.pool[0])
    else if s.maxWaiting != 0 && |s.waiting| >= s.maxWaiting then TooMany
    else MustWait
  }

  function TakeIdle<P>(s: State<P>): State<P>
    requires s.pool != []
  {
    s.(pool := s.pool[1..], nconnsMin := Min(s.nconnsMin, |s.pool| - 1))
  }

  function MaybeGrow<P>(s: State<P>): State<P> {
    if s.nconns >= s.maxSize || s.growing then s
    else s.(nconns := s.nconns + 1, growing := true, growAdds := s.growAdds + 1)
  }

  function RequestStep<P>(s: State<P>, p: P, expired: bool): State<P> {
    match GetReady(s, expired)
    case Expired => s
    case TooMany => s
    case Taken(c) => TakeIdle(s).(held := s.held + {c})
    case MustWait => MaybeGrow(s.(waiting := s.waiting + [p], slots := s.slots[p := Slot(None, false)]))
  }

  /** Would set() on this position accept a connection? A client that left has timed out. */
  predicate Accepts<P>(s: State<P>, p: P) {
    p in s.slots && s.slots[p].conn.None? && !s.slots[p].error
  }

  /** An AddConnection task that brought `c` is over once `c` has a new owner, unless it is a growing one. */
  function Landed<P>(s: State<P>, c: Conn): State<P> {
    if c in s.growTransit
    then s.(growTransit := s.growTransit - {c}, growPost := s.growPost + 1)
    else s.(transit := s.transit - {c})
  }

  function DeliverStep<P>(s: State<P>, c: Conn): State<P>
    requires s.waiting != []
  {
    var p := s.waiting[0];
    var t := s.(waiting := s.waiting[1..]);
    if Accepts(s, p) then Landed(t.(slots := s.slots[p := Slot(Some(c), false)]), c) else t
  }

  function GrowMoreStep<P>(s: State<P>): State<P>
    requires s.growPost > 0
  {
    var t := s.(growPost := s.growPost - 1);
    if s.nconns < s.minSize || (s.nconns < s.maxSize && s.waiting != [])
    then t.(nconns := s.nconns + 1, growAdds := s.growAdds + 1)
    else t.(growing := false)
  }

  function GiveUpStep<P>(s: State<P>, grows: bool): State<P>
    requires if grows then s.growAdds > 0 else s.adds > 0
  {
    if grows then s.(nconns := s.nconns - 1, growing := false, growAdds := s.growAdds - 1)
    else s.(nconns := s.nconns - 1, adds := s.adds - 1)
  }

  predicate ShrinkDrops<P>(s: State<P>) {
    s.nconns > s.minSize && s.nconnsMin > 0 && s.pool != []
  }

  function ShrinkStep<P>(s: State<P>): State<P> {
    if ShrinkDrops(s)
    then s.(pool := s.pool[1..], nconns := s.nconns - 1, nconnsMin := |s.pool| - 1)
    else s.(nconnsMin := |s.pool|)
  }

  function CheckStep<P>(s: State<P>): State<P> {
    MaybeGrow(s.(pool := [], transit := s.transit + Elems(s.pool)))
  }

  function ResizeStep<P>(s: State<P>, newMin: int, newMax: int, ngrow: nat): State<P> {
    s.(minSize := newMin, maxSize := newMax, nconns := s.nconns + ngrow, adds := s.adds + ngrow)
  }

  // ---------- steps ----------

  ghost predicate InTransit<P>(s: State<P>, c: Conn) {
    c in s.transit || c in s.growTransit
  }

  ghost predicate Enabled<P>(s: State<P>, e: Event<P>) {
    match e
    case Request(p, _) => p !in s.slots && p !in s.waiting
    case TimeOut(p) => p in s.slots && !s.slots[p].error
    case Leave(p) => p in s.slots && (s.slots[p].conn.Some? || s.slots[p].error)
    case Return(c) => c in s.held
    case Discard(c) => c in s.transit
    case Deliver(c) => InTransit(s, c) && s.waiting != []
    case Store(c) => InTransit(s, c) && s.waiting == []
    case Connected(g) => if g then s.growAdds > 0 else s.adds > 0
    case GiveUp(g) => if g then s.growAdds > 0 else s.adds > 0
    case GrowMore => s.growPost > 0
    case Shrink => true
    case Check => true
    case Resize(newMin, newMax, _) => CheckSize(newMin, Some(newMax)).Ok?
  }

  ghost function Step<P>(s: State<P>, e: Event<P>): State<P>
    requires Enabled(s, e)
  {
    match e
    case Request(p, expired) => RequestStep(s, p, expired)
    case TimeOut(p) => s.(slots := s.slots[p := s.slots[p].(error := true)])
    case Leave(p) =>
      var left := s.(slots := s.slots - {p});
      if s.slots[p].conn.Some? then left.(held := s.held + {s.slots[p].conn.value}) else left
    case Return(c) => s.(held := s.held - {c}, transit := s.transit + {c})
    case Discard(c) => s.(transit := s.transit - {c}, adds := s.adds + 1)
    case Deliver(c) => DeliverStep(s, c)
    case Store(c) => Landed(s.(pool := s.pool + [c]), c)
    case Connected(g) =>
      if g then s.(growTransit := s.growTransit + {s.made}, made := s.made + 1, growAdds := s.growAdds - 1)
      else s.(transit := s.transit + {s.made}, made := s.made + 1, adds := s.adds - 1)
    case GiveUp(g) => GiveUpStep(s, g)
    case GrowMore => GrowMoreStep(s)
    case Shrink => ShrinkStep(s)
    case Check => CheckStep(s)
    case Resize(newMin, newMax, ngrow) => ResizeStep(s, newMin, newMax, ngrow)
  }

  // ---------- invariants ----------

  /** Positions that have been handed a connection their client has not picked up yet. */
  ghost function Given<P>(s: State<P>): set<P> {
    set p | p in s.slots && s.slots[p].conn.Some?
  }

  /** `_nconns` counts every connection, wherever it is, and every connection being prepared. */
  ghost predicate Conserved<P>(s: State<P>) {
    s.nconns == |s.pool| + |s.held| + |Given(s)| + |s.transit| + |s.growTransit| + s.adds + s.growAdds
  }

  /** The connection handed to position `p`, if any, is nowhere else. */
  ghost predicate GivenApart<P>(s: State<P>, p: P)
    requires p in s.slots
  {
    s.slots[p].conn.Some? ==>
      var c := s.slots[p].conn.value;
      c < s.made && c !in s.pool && c !in s.held && !InTransit(s, c)
  }

  /** Every connection is in one place only: none is lost by being in none, none is given twice. */
  ghost predicate OnePlace<P>(s: State<P>) {
    && (forall i, j :: 0 <= i < j < |s.pool| ==> s.pool[i] != s.pool[j])
    && (forall c :: c in s.pool ==> c < s.made && c !in s.held && !InTransit(s, c))
    && (forall c :: c in s.held ==> c < s.made && !InTransit(s, c))
    && (forall c :: c in s.transit ==> c < s.made && c !in s.growTransit)
    && (forall c :: c in s.growTransit ==> c < s.made)
    && (forall p :: p in s.slots ==> GivenApart(s, p))
    && (forall p, q :: p in s.slots && q in s.slots && p != q && s.slots[p].conn.Some? ==> s.slots[p].conn != s.slots[q].conn)
  }

  /** No client waits while a connection is idle. */
  ghost predicate IdleOrWaiting<P>(s: State<P>) {
    s.pool == [] || s.waiting == []
  }

  /** At most one task grows the pool, and `_growing` says whether there is one. */
  ghost predicate GrowthDiscipline<P>(s: State<P>) {
    s.growAdds + |s.growTransit| + s.growPost == if s.growing then 1 else 0
  }

  ghost predicate SizesValid<P>(s: State<P>) {
    0 <= s.minSize <= s.maxSize && 0 < s.maxSize
  }

  ghost predicate Counts<P>(s: State<P>) {
    Conserved(s) && IdleOrWaiting(s) && GrowthDiscipline(s) && SizesValid(s)
  }

  ghost predicate Inv<P>(s: State<P>) {
    Counts(s) && OnePlace(s)
  }

  ghost predicate Bounded<P>(s: State<P>) {
    s.nconns <= s.maxSize
  }

  /** Clients wait only if the pool is full or is growing. */
  ghost predicate NotStranded<P>(s: State<P>) {
    s.waiting != [] ==> s.nconns >= s.maxSize || s.growing
  }

  // ---------- every connection stays in one place ----------

  lemma TakeOnePlace<P>(s: State<P>)
    requires OnePlace(s) && s.pool != []
    ensures OnePlace(TakeIdle(s).(held := s.held + {s.pool[0]}))
  {
    var t := TakeIdle(s).(held := s.held + {s.pool[0]});
    assert s.pool[0] in s.pool;
    assert forall c :: c in t.pool ==> c in s.pool;
    assert forall p :: p in s.slots ==> GivenApart(s, p);
  }

  lemma EnqueueOnePlace<P>(s: State<P>, p: P)
    requires OnePlace(s) && p !in s.slots
    ensures OnePlace(s.(waiting := s.waiting + [p], slots := s.slots[p := Slot(None, false)]))
  {
    assert forall q :: q in s.slots ==> GivenApart(s, q);
  }

  lemma RequestOnePlace<P>(s: State<P>, p: P, expired: bool)
    requires OnePlace(s) && Enabled(s, Request(p, expired))
    ensures OnePlace(RequestStep(s, p, expired))
  {
    match GetReady(s, expired)
    case Expired =>
    case TooMany =>
    case Taken(_) => TakeOnePlace(s);
    case MustWait =>
      EnqueueOnePlace(s, p);
      var t := s.(waiting := s.waiting + [p], slots := s.slots[p := Slot(None, false)]);
      MoveOnePlace(t, MaybeGrow(t));
  }

  /** Steps that move no connection. */
  lemma MoveOnePlace<P>(s: State<P>, t: State<P>)
    requires OnePlace(s)
    requires t.pool == s.pool && t.slots == s.slots && t.held == s.held
    requires t.transit == s.transit && t.growTransit == s.growTransit && t.made == s.made
    ensures OnePlace(t)
  {
    assert forall p :: p in s.slots ==> GivenApart(s, p);
  }

  lemma TimeOutOnePlace<P>(s: State<P>, p: P)
    requires OnePlace(s) && Enabled(s, TimeOut(p))
    ensures OnePlace(Step(s, TimeOut(p)))
  {
    assert forall p :: p in s.slots ==> GivenApart(s, p);
  }

  lemma LeaveOnePlace<P>(s: State<P>, p: P)
    requires OnePlace(s) && Enabled(s, Leave(p))
    ensures OnePlace(Step(s, Leave(p)))
  {
    assert forall p :: p in s.slots ==> GivenApart(s, p);
  }

  lemma ReturnOnePlace<P>(s: State<P>, c: Conn)
    requires OnePlace(s) && Enabled(s, Return(c))
    ensures OnePlace(Step(s, Return(c)))
  {
    assert forall p :: p in s.slots ==> GivenApart(s, p);
  }

  lemma DiscardOnePlace<P>(s: State<P>, c: Conn)
    requires OnePlace(s) && Enabled(s, Discard(c))
    ensures OnePlace(Step(s, Discard(c)))
  {
    assert forall p :: p in s.slots ==> GivenApart(s, p);
  }

  lemma ConnectedOnePlace<P>(s: State<P>, g: bool)
    requires OnePlace(s) && Enabled(s, Connected(g))
    ensures OnePlace(Step(s, Connected(g)))
  {
    assert forall p :: p in s.slots ==> GivenApart(s, p);
  }

  lemma ShrinkOnePlace<P>(s: State<P>)
    requires OnePlace(s) && Enabled(s, Shrink)
    ensures OnePlace(ShrinkStep(s))
  {
    assert forall c :: c in ShrinkStep(s).pool ==> c in s.pool;
    assert forall p :: p in s.slots ==> GivenApart(s, p);
  }

  lemma CheckOnePlace<P>(s: State<P>)
    requires OnePlace(s) && Enabled(s, Check)
    ensures OnePlace(CheckStep(s))
  {
    assert forall p :: p in s.slots ==> GivenApart(s, p);
  }

  lemma DeliverOnePlace<P>(s: State<P>, c: Conn)
    requires OnePlace(s) && Enabled(s, Deliver(c))
    ensures OnePlace(Step(s, Deliver(c)))
  {
    assert forall p :: p in s.slots ==> GivenApart(s, p);
  }

  lemma StoreOnePlace<P>(s: State<P>, c: Conn)
    requires OnePlace(s) && Enabled(s, Store(c))
    ensures OnePlace(Step(s, Store(c)))
  {
    assert forall d :: d in s.pool + [c] <==> d in s.pool || d == c;
    assert forall p :: p in s.slots ==> GivenApart(s, p);
  }

  lemma StepOnePlace<P>(s: State<P>, e: Event<P>)
    requires OnePlace(s) && Enabled(s, e)
    ensures OnePlace(Step(s, e))
  {
    match e
    case Request(p, expired) => RequestOnePlace(s, p, expired);
    case TimeOut(p) => TimeOutOnePlace(s, p);
    case Leave(p) => LeaveOnePlace(s, p);
    case Return(c) => ReturnOnePlace(s, c);
    case Discard(c) => DiscardOnePlace(s, c);
    case Deliver(c) => DeliverOnePlace(s, c);
    case Store(c) => StoreOnePlace(s, c);
    case Connected(g) => ConnectedOnePlace(s, g);
    case GiveUp(g) => MoveOnePlace(s, Step(s, e));
    case GrowMore => MoveOnePlace(s, Step(s, e));
    case Shrink => ShrinkOnePlace(s);
    case Check => CheckOnePlace(s);
    case Resize(_, _, _) => MoveOnePlace(s, Step(s, e));
  }

  // ---------- what each step keeps ----------

  lemma InitInv<P>(minSize: nat, maxSize: nat, maxWaiting: int)
    requires minSize <= maxSize && 0 < maxSize
    ensures Inv(Init<P>(minSize, maxSize, maxWaiting))
    ensures Bounded(Init<P>(minSize, maxSize, maxWaiting)) && NotStranded(Init<P>(minSize, maxSize, maxWaiting))
  {
    var s := Init<P>(minSize, maxSize, maxWaiting);
    assert Given(s) == {};
  }

  lemma MaybeGrowCounts<P>(s: State<P>)
    requires Counts(s)
    ensures Counts(MaybeGrow(s))
    ensures Bounded(s) ==> Bounded(MaybeGrow(s))
    ensures NotStranded(MaybeGrow(s))
  {
    assert Given(MaybeGrow(s)) == Given(s);
  }

  lemma RequestCounts<P>(s: State<P>, p: P, expired: bool)
    requires Inv(s) && Enabled(s, Request(p, expired))
    ensures Counts(RequestStep(s, p, expired))
  {
    match GetReady(s, expired)
    case Expired =>
    case TooMany =>
    case Taken(c) =>
      var t := RequestStep(s, p, expired);
      assert c in s.pool;
      assert Given(t) == Given(s);
    case MustWait =>
      var t := s.(waiting := s.waiting + [p], slots := s.slots[p := Slot(None, false)]);
      assert Given(t) == Given(s);
      MaybeGrowCounts(t);
  }

  lemma LandedCounts<P>(s: State<P>, c: Conn)
    requires InTransit(s, c)
    ensures var t := Landed(s, c);
            && |t.transit| + |t.growTransit| == |s.transit| + |s.growTransit| - 1
            && |t.growTransit| + t.growPost == |s.growTransit| + s.growPost
            && Given(t) == Given(s)
  {
    assert Given(Landed(s, c)) == Given(s);
  }

  lemma GiveCounts<P>(s: State<P>, p: P, c: Conn)
    requires Accepts(s, p)
    ensures var t := s.(slots := s.slots[p := Slot(Some(c), false)]);
            |Given(t)| == |Given(s)| + 1
  {
    var t := s.(slots := s.slots[p := Slot(Some(c), false)]);
    assert Given(t) == Given(s) + {p};
    assert p !in Given(s);
  }

  lemma DeliverCounts<P>(s: State<P>, c: Conn)
    requires Counts(s) && Enabled(s, Deliver(c))
    ensures Counts(DeliverStep(s, c))
  {
    var p := s.waiting[0];
    var t := s.(waiting := s.waiting[1..]);
    assert Given(t) == Given(s);
    if Accepts(s, p) {
      GiveCounts(t, p, c);
      LandedCounts(t.(slots := s.slots[p := Slot(Some(c), false)]), c);
    }
  }

  lemma StoreCounts<P>(s: State<P>, c: Conn)
    requires Inv(s) && Enabled(s, Store(c))
    ensures Counts(Step(s, Store(c)))
  {
    var u := s.(pool := s.pool + [c]);
    assert Given(u) == Given(s);
    LandedCounts(u, c);
  }

  lemma GivenLeft<P>(s: State<P>, p: P)
    requires Enabled(s, Leave(p))
    ensures |Given(Step(s, Leave(p)))| == |Given(s)| - if s.slots[p].conn.Some? then 1 else 0
  {
    var t := Step(s, Leave(p));
    if s.slots[p].conn.Some? {
      assert p in Given(s);
      assert Given(t) == Given(s) - {p};
    } else {
      assert Given(t) == Given(s);
    }
  }

  lemma LeaveCounts<P>(s: State<P>, p: P)
    requires Inv(s) && Enabled(s, Leave(p))
    ensures Counts(Step(s, Leave(p)))
  {
    GivenLeft(s, p);
    var t := Step(s, Leave(p));
    if s.slots[p].conn.Some? {
      assert GivenApart(s, p);
      assert |t.held| == |s.held| + 1;
    }
  }

  lemma TimeOutCounts<P>(s: State<P>, p: P)
    requires Inv(s) && Enabled(s, TimeOut(p))
    ensures Counts(Step(s, TimeOut(p)))
  {
    var t := Step(s, TimeOut(p));
    assert Given(t) == Given(s);
  }

  lemma ReturnCounts<P>(s: State<P>, c: Conn)
    requires Inv(s) && Enabled(s, Return(c))
    ensures Counts(Step(s, Return(c)))
  {
    var t := Step(s, Return(c));
    assert Given(t) == Given(s);
  }

  lemma DiscardCounts<P>(s: State<P>, c: Conn)
    requires Inv(s) && Enabled(s, Discard(c))
    ensures Counts(Step(s, Discard(c)))
  {
    var t := Step(s, Discard(c));
    assert Given(t) == Given(s);
  }

  lemma ConnectedCounts<P>(s: State<P>, g: bool)
    requires Inv(s) && Enabled(s, Connected(g))
    ensures Counts(Step(s, Connected(g)))
  {
    var t := Step(s, Connected(g));
    assert Given(t) == Given(s);
  }

  lemma GiveUpCounts<P>(s: State<P>, g: bool)
    requires Inv(s) && Enabled(s, GiveUp(g))
    ensures Counts(Step(s, GiveUp(g)))
  {
    var t := Step(s, GiveUp(g));
    assert Given(t) == Given(s);
  }

  lemma GrowMoreCounts<P>(s: State<P>)
    requires Inv(s) && Enabled(s, GrowMore)
    ensures Counts(GrowMoreStep(s))
  {
    var t := GrowMoreStep(s);
    assert Given(t) == Given(s);
  }

  lemma ShrinkCounts<P>(s: State<P>)
    requires Inv(s)
    ensures Counts(ShrinkStep(s))
  {
    var t := ShrinkStep(s);
    assert Given(t) == Given(s);
  }

  lemma {:induction false} IdleCount(pool: seq<Conn>)
    requires forall i, j :: 0 <= i < j < |pool| ==> pool[i] != pool[j]
    ensures |Elems(pool)| == |pool|
  {
    if pool == [] {
      assert Elems(pool) == {};
    } else {
      IdleCount(pool[1..]);
      assert Elems(pool) == {pool[0]} + Elems(pool[1..]);
    }
  }

  lemma CheckCounts<P>(s: State<P>)
    requires Inv(s)
    ensures Counts(CheckStep(s))
  {
    var t := s.(pool := [], transit := s.transit + Elems(s.pool));
    IdleCount(s.pool);
    assert s.transit !! Elems(s.pool);
    assert Given(t) == Given(s);
    MaybeGrowCounts(t);
  }

  lemma ResizeCounts<P>(s: State<P>, newMin: int, newMax: int, ngrow: nat)
    requires Inv(s) && Enabled(s, Resize(newMin, newMax, ngrow))
    ensures Counts(Step(s, Resize(newMin, newMax, ngrow)))
  {
    var t := Step(s, Resize(newMin, newMax, ngrow));
    assert Given(t) == Given(s);
  }

  lemma StepCounts<P>(s: State<P>, e: Event<P>)
    requires Inv(s) && Enabled(s, e)
    ensures Counts(Step(s, e))
  {
    match e
    case Request(p, expired) => RequestCounts(s, p, expired);
    case TimeOut(p) => TimeOutCounts(s, p);
    case Leave(p) => LeaveCounts(s, p);
    case Return(c) => ReturnCounts(s, c);
    case Discard(c) => DiscardCounts(s, c);
    case Deliver(c) => DeliverCounts(s, c);
    case Store(c) => StoreCounts(s, c);
    case Connected(g) => ConnectedCounts(s, g);
    case GiveUp(g) => GiveUpCounts(s, g);
    case GrowMore => GrowMoreCounts(s);
    case Shrink => ShrinkCounts(s);
    case Check => CheckCounts(s);
    case Resize(newMin, newMax, ngrow) => ResizeCounts(s, newMin, newMax, ngrow);
  }

  lemma StepInv<P>(s: State<P>, e: Event<P>)
    requires Inv(s) && Enabled(s, e)
    ensures Inv(Step(s, e))
  {
    StepOnePlace(s, e);
    StepCounts(s, e);
  }

  /** Only resize can push `_nconns` over max_size. */
  lemma StepBounded<P>(s: State<P>, e: Event<P>)
    requires Inv(s) && Enabled(s, e) && Bounded(s) && !e.Resize?
    ensures Bounded(Step(s, e))
  {
  }

  /** Without a give-up and without a resize, no step strands a client. */
  lemma StepNotStranded<P>(s: State<P>, e: Event<P>)
    requires Inv(s) && Enabled(s, e) && NotStranded(s) && !e.Resize? && !e.GiveUp?
    ensures NotStranded(Step(s, e))
  {
  }
}
