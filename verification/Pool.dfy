/** The connection pool object: each method is one block run under the pool lock, or one client action. */
module Pool {
  import opened Util
  import opened PoolModel
  import opened PoolRuns

  /** A position in the queue of the clients waiting for a connection. */
  class WaitingClient {
    var conn: Option<Conn>
    var error: bool

    constructor ()
      ensures conn == None && !error
    {
      conn, error := None, false;
    }

    /** Offer a connection; the answer says whether the client takes it. */
    method Set(c: Conn) returns (accepted: bool)
      modifies this
      ensures accepted == (old(conn).None? && !old(error))
      ensures error == old(error)
      ensures conn == if accepted then Some(c) else old(conn)
    {
      if conn.Some? || error { return false; }
      conn := Some(c);
      return true;
    }

    /** The wait on the condition ended without a notification. */
    method Expire()
      modifies this`error
      ensures error
    {
      error := true;
    }

    /** What wait() returns: a connection set in time wins over the time-out. */
    method Outcome() returns (r: Result<Conn, ()>)
      requires conn.Some? || error
      ensures r == if conn.Some? then Ok(conn.value) else Err(())
    {
      if conn.Some? { r := Ok(conn.value); } else { r := Err(()); }
    }
  }

  datatype Task = AddConnection(growing: bool)

  /** Hand `c` over as _add_to_pool does: to the first waiting client that takes it, else to the pool. */
  ghost function AddToPoolStep<P>(s: State<P>, c: Conn): State<P>
    requires InTransit(s, c)
    decreases |s.waiting|
  {
    if s.waiting == [] then Step(s, Store(c))
    else if Accepts(s, s.waiting[0]) then Step(s, Deliver(c))
    else AddToPoolStep(Step(s, Deliver(c)), c)
  }

  /** The whole block is a run of the small steps, so other clients may time out between any two of them. */
  lemma {:induction false} AddToPoolIsRun<P>(s: State<P>, c: Conn) returns (es: seq<Event<P>>)
    requires InTransit(s, c)
    ensures Valid(s, es) && Final(s, es) == AddToPoolStep(s, c)
    decreases |s.waiting|
  {
    if s.waiting == [] {
      es := [Store(c)];
      assert Final(Step(s, es[0]), es[1..]) == Step(s, es[0]);
    } else if Accepts(s, s.waiting[0]) {
      es := [Deliver(c)];
      assert Final(Step(s, es[0]), es[1..]) == Step(s, es[0]);
    } else {
      var rest := AddToPoolIsRun(Step(s, Deliver(c)), c);
      es := [Deliver(c)] + rest;
      assert es[1..] == rest;
    }
  }

  /** The connection reaches the first client still waiting; it becomes idle only if there is none. */
  lemma {:induction false} AddToPoolServesFirst<P>(s: State<P>, c: Conn, k: nat)
    requires InTransit(s, c) && k <= |s.waiting|
    requires forall i :: 0 <= i < k ==> !Accepts(s, s.waiting[i])
    requires k < |s.waiting| ==> Accepts(s, s.waiting[k])
    ensures k < |s.waiting| ==>
              && AddToPoolStep(s, c).slots == s.slots[s.waiting[k] := Slot(Some(c), false)]
              && AddToPoolStep(s, c).waiting == s.waiting[k + 1..]
              && AddToPoolStep(s, c).pool == s.pool
    ensures k == |s.waiting| ==>
              && AddToPoolStep(s, c).pool == s.pool + [c]
              && AddToPoolStep(s, c).slots == s.slots && AddToPoolStep(s, c).waiting == []
    decreases k
  {
    if k > 0 {
      AddToPoolServesFirst(Step(s, Deliver(c)), c, k - 1);
    }
  }

  class ConnectionPool {
    var minSize: int
    var maxSize: int
    const maxWaiting: int
    var nconns: int
    var nconnsMin: int
    var growing: bool
    var pool: seq<Conn>
    var waiting: seq<WaitingClient>
    var tasks: seq<Task>                 // the queue of tasks, as far as AddConnection tasks go

    ghost var clients: set<WaitingClient> // positions whose client is still in wait()
    ghost var held: set<Conn>
    ghost var transit: set<Conn>
    ghost var growTransit: set<Conn>
    ghost var adds: nat
    ghost var growAdds: nat
    ghost var growPost: nat
    ghost var made: nat

    ghost function View(): State<WaitingClient>
      reads this, clients
    {
      State(minSize, maxSize, maxWaiting, nconns, nconnsMin, growing, pool, waiting,
            map p | p in clients :: Slot(p.conn, p.error),
            held, transit, growTransit, adds, growAdds, growPost, made)
    }

    /** A queued position whose client has left has timed out. */
    ghost predicate Valid()
      reads this, waiting
    {
      forall p :: p in waiting && p !in clients ==> p.error
    }

    constructor (minSize: nat, maxSize: nat, maxWaiting: int)
      requires minSize <= maxSize && 0 < maxSize
      ensures Valid() && View() == Init(minSize, maxSize, maxWaiting)
      ensures Inv(View())
      ensures tasks == seq(minSize, _ => AddConnection(false))
    {
      this.minSize, this.maxSize, this.maxWaiting := minSize, maxSize, maxWaiting;
      nconns, nconnsMin, growing := minSize, minSize, false;
      pool, waiting := [], [];
      tasks := seq(minSize, _ => AddConnection(false));
      clients, held, transit, growTransit := {}, {}, {}, {};
      adds, growAdds, growPost, made := minSize, 0, 0, 0;
      new;
      InitInv<WaitingClient>(minSize, maxSize, maxWaiting);
    }

    method GetReadyConnection(expired: bool) returns (r: Ready)
      requires Valid()
      modifies this`pool, this`nconnsMin, this`held
      ensures Valid()
      ensures r == GetReady(old(View()), expired)
      ensures View() == if r.Taken? then TakeIdle(old(View())).(held := old(held) + {r.conn}) else old(View())
    {
      if expired { return Expired; }
      if pool != [] {
        r := Taken(pool[0]);
        pool := pool[1..];
        if |pool| < nconnsMin {
          nconnsMin := |pool|;
        }
        held := held + {r.conn};
        return;
      }
      if maxWaiting != 0 && |waiting| >= maxWaiting { return TooMany; }
      return MustWait;
    }

    method MaybeGrowPool()
      requires Valid()
      modifies this`nconns, this`growing, this`tasks, this`growAdds
      ensures Valid() && View() == MaybeGrow(old(View()))
      ensures tasks == old(tasks) + if nconns != old(nconns) then [AddConnection(true)] else []
    {
      if nconns >= maxSize || growing { return; }
      nconns := nconns + 1;
      growing := true;
      tasks := tasks + [AddConnection(true)];
      growAdds := growAdds + 1;
    }

    /** The critical section of _getconn_unchecked. */
    method RequestConnection(expired: bool) returns (r: Ready, pos: WaitingClient?)
      requires Valid()
      modifies this
      ensures Valid()
      ensures r == GetReady(old(View()), expired)
      ensures r.MustWait? <==> pos != null
      ensures pos != null ==> fresh(pos) && View() == RequestStep(old(View()), pos, expired)
      ensures r.Taken? ==> View() == TakeIdle(old(View())).(held := old(held) + {r.conn})
      ensures r.Expired? || r.TooMany? ==> View() == old(View())
    {
      ghost var s := View();
      r := GetReadyConnection(expired);
      pos := null;
      if r.MustWait? {
        var p := new WaitingClient();
        pos := p;
        waiting := waiting + [p];
        clients := clients + {p};
        assert View().slots == s.slots[p := Slot(None, false)];
        MaybeGrowPool();
      }
    }

    /** One client's wait on its condition ends without a notification. */
    method WaitExpires(pos: WaitingClient)
      requires Valid() && pos in clients && !pos.error
      modifies pos
      ensures Valid() && View() == Step(old(View()), TimeOut(pos))
    {
      pos.Expire();
    }

    /** The client leaves wait() with its connection, or with an exception. */
    method FinishWait(pos: WaitingClient) returns (r: Result<Conn, ()>)
      requires Valid() && pos in clients && (pos.conn.Some? || pos.error)
      requires pos in waiting ==> pos.error
      modifies this`clients, this`held
      ensures Valid() && View() == Step(old(View()), Leave(pos))
      ensures r.Ok? ==> r.value in held
      ensures r.Ok? <==> pos.conn.Some?
    {
      r := pos.Outcome();
      clients := clients - {pos};
      if r.Ok? {
        held := held + {r.value};
      }
    }

    /** One turn of the loop of _add_to_pool. */
    method OfferToFirst(c: Conn) returns (accepted: bool)
      requires Valid() && InTransit(View(), c) && waiting != []
      modifies this`waiting, this`transit, this`growTransit, this`growPost, waiting[0]
      ensures Valid() && View() == Step(old(View()), Deliver(c))
      ensures accepted == Accepts(old(View()), old(waiting)[0])
      ensures waiting == old(waiting)[1..]
    {
      ghost var s := View();
      var pos := waiting[0];
      assert pos in waiting;
      waiting := waiting[1..];
      accepted := pos.Set(c);
      assert accepted == Accepts(s, pos);
      if accepted {
        assert View().slots == s.slots[pos := Slot(Some(c), false)];
        Land(c);
      } else {
        assert View().slots == s.slots;
      }
    }

    /** _add_to_pool: the loop over the waiting clients, and its else branch. */
    method AddToPool(c: Conn)
      requires Valid() && InTransit(View(), c)
      modifies this`waiting, this`pool, this`transit, this`growTransit, this`growPost, waiting
      ensures Valid() && View() == AddToPoolStep(old(View()), c)
    {
      ghost var s := View();
      while waiting != []
        invariant Valid() && InTransit(View(), c)
        invariant AddToPoolStep(View(), c) == AddToPoolStep(s, c)
        invariant forall p :: p in waiting ==> p in old(waiting)
        decreases |waiting|
      {
        assert waiting[0] in waiting;
        var accepted := OfferToFirst(c);
        if accepted { return; }
      }
      KeepIdle(c);
    }

    /** The else branch: no client waits, so the connection goes to the end of the pool. */
    method KeepIdle(c: Conn)
      requires Valid() && InTransit(View(), c) && waiting == []
      modifies this`pool, this`transit, this`growTransit, this`growPost
      ensures Valid() && View() == Step(old(View()), Store(c)) && waiting == []
    {
      pool := pool + [c];
      Land(c);
    }

    /** Bookkeeping: connection `c` has a new owner. */
    ghost method Land(c: Conn)
      modifies this`transit, this`growTransit, this`growPost
      ensures View() == Landed(old(View()), c)
    {
      if c in growTransit {
        growTransit := growTransit - {c};
        growPost := growPost + 1;
      } else {
        transit := transit - {c};
      }
    }

    /** putconn: the connection leaves its client and goes through _return_connection. */
    method ReturnConnection(c: Conn, broken: bool)
      requires Valid() && c in held
      modifies this, waiting
      ensures Valid()
      ensures broken ==> View() == Step(Step(old(View()), Return(c)), Discard(c)) && tasks == old(tasks) + [AddConnection(false)]
      ensures !broken ==> View() == AddToPoolStep(Step(old(View()), Return(c)), c)
    {
      held := held - {c};
      transit := transit + {c};
      if broken {
        tasks := tasks + [AddConnection(false)];
        transit := transit - {c};
        adds := adds + 1;
        return;
      }
      assert View() == Step(old(View()), Return(c));
      AddToPool(c);
    }

    /** The end of a failed reconnection: the connection is no more counted. */
    method GiveUpConnecting(grows: bool)
      requires Valid() && (if grows then growAdds > 0 else adds > 0) && GrowthDiscipline(View())
      modifies this`nconns, this`growing, this`growAdds, this`adds
      ensures Valid() && View() == Step(old(View()), GiveUp(grows))
    {
      nconns := nconns - 1;
      if grows && growing {
        growing := false;
      }
      if grows { growAdds := growAdds - 1; } else { adds := adds - 1; }
    }

    /** The second critical section of a growing AddConnection. */
    method KeepGrowing()
      requires Valid() && growPost > 0
      modifies this`nconns, this`growing, this`tasks, this`growAdds, this`growPost
      ensures Valid() && View() == Step(old(View()), GrowMore)
      ensures tasks == old(tasks) + if growing == old(growing) && growAdds > old(growAdds) then [AddConnection(true)] else []
    {
      if nconns < minSize || (nconns < maxSize && waiting != []) {
        nconns := nconns + 1;
        tasks := tasks + [AddConnection(true)];
        growAdds := growAdds + 1;
      } else {
        growing := false;
      }
      growPost := growPost - 1;
    }

    method ShrinkPool() returns (toClose: Option<Conn>)
      requires Valid()
      modifies this`pool, this`nconns, this`nconnsMin
      ensures Valid() && View() == Step(old(View()), Shrink)
      ensures toClose == if ShrinkDrops(old(View())) then Some(old(pool)[0]) else None
    {
      toClose := None;
      var least := nconnsMin;
      nconnsMin := |pool|;
      if nconns > minSize && least > 0 && pool != [] {
        toClose := Some(pool[0]);
        pool := pool[1..];
        nconns := nconns - 1;
        nconnsMin := nconnsMin - 1;
      }
    }

    /** The critical section of check(): the idle connections become the local list `conns`. */
    method TakeAllForCheck() returns (conns: seq<Conn>)
      requires Valid()
      modifies this
      ensures Valid() && View() == Step(old(View()), Check)
      ensures conns == old(pool)
    {
      conns := pool;
      pool := [];
      transit := transit + Elems(conns);
      assert View() == old(View()).(pool := [], transit := old(View()).transit + Elems(old(View()).pool));
      MaybeGrowPool();
    }

    /** What check() does with one connection of its local list. */
    method PutBackChecked(c: Conn, broken: bool)
      requires Valid() && c in transit
      modifies this, waiting
      ensures Valid()
      ensures View() == if broken then Step(old(View()), Discard(c)) else AddToPoolStep(old(View()), c)
      ensures tasks == old(tasks) + if broken then [AddConnection(false)] else []
    {
      if broken {
        transit := transit - {c};
        adds := adds + 1;
        tasks := tasks + [AddConnection(false)];
      } else {
        AddToPool(c);
      }
    }

    /** The loop of check() over its local list; `broken[i]` says what the test of conns[i] gives. */
    method CheckConnections(conns: seq<Conn>, broken: seq<bool>)
      requires Valid() && |broken| == |conns|
      requires NoDup(conns) && Elems(conns) <= transit
      modifies this, waiting
      ensures Valid() && View() == CheckedStep(old(View()), conns, broken)
    {
      var k := |conns|;
      ghost var s := View();
      assert conns[..k] == conns && broken[..k] == broken;
      while k > 0
        invariant 0 <= k <= |conns|
        invariant Valid()
        invariant CheckedStep(View(), conns[..k], broken[..k]) == CheckedStep(s, conns, broken)
        invariant forall i :: 0 <= i < k ==> conns[i] in transit
        invariant forall p :: p in waiting ==> p in old(waiting)
      {
        k := k - 1;
        ghost var t := View();
        assert t.waiting == waiting && forall i :: 0 <= i < |waiting| ==> waiting[i] in waiting;
        assert conns[..k + 1][..k] == conns[..k] && broken[..k + 1][..k] == broken[..k];
        PutBackChecked(conns[k], broken[k]);
        CheckedOneMoves(t, conns[k], broken[k]);
        assert waiting == View().waiting;
      }
    }

    /** resize; `seen` is what _min_size was when it was read, before the lock was taken. */
    method ResizePool(min: int, max: Option<int>, seen: int) returns (r: Result<(int, int), string>)
      requires Valid()
      modifies this`minSize, this`maxSize, this`nconns, this`tasks, this`adds
      ensures Valid() && r == CheckSize(min, max)
      ensures r.Err? ==> View() == old(View()) && tasks == old(tasks)
      ensures r.Ok? ==>
                var ngrow := Max(0, min - seen);
                && View() == Step(old(View()), Resize(r.value.0, r.value.1, ngrow))
                && tasks == old(tasks) + seq(ngrow, _ => AddConnection(false))
    {
      r := CheckSize(min, max);
      if r.Err? { return; }
      ghost var s := View();
      var ngrow := Max(0, min - seen);
      minSize, maxSize := r.value.0, r.value.1;
      nconns := nconns + ngrow;
      adds := adds + ngrow;
      assert View().slots == s.slots;
      ghost var queued := tasks;
      for i := 0 to ngrow
        modifies this`tasks
        invariant tasks == queued + seq(i, _ => AddConnection(false))
      {
        tasks := tasks + [AddConnection(false)];
      }
    }
  }

  /** Handing over a connection keeps the invariants, moves that connection only, and leaves `_nconns` alone. */
  lemma {:induction false} AddToPoolKeeps<P>(s: State<P>, c: Conn)
    requires Inv(s) && InTransit(s, c)
    ensures Inv(AddToPoolStep(s, c))
    ensures AddToPoolStep(s, c).nconns == s.nconns
    ensures AddToPoolStep(s, c).held == s.held
    ensures forall p :: p in AddToPoolStep(s, c).waiting ==> p in s.waiting
    ensures c in s.transit ==> AddToPoolStep(s, c).transit == s.transit - {c}
    decreases |s.waiting|
  {
    if s.waiting == [] {
      StepInv(s, Store(c));
    } else {
      StepInv(s, Deliver(c));
      if !Accepts(s, s.waiting[0]) {
        AddToPoolKeeps(Step(s, Deliver(c)), c);
      }
    }
  }

  ghost function CheckedOne<P>(s: State<P>, c: Conn, broken: bool): State<P>
    requires c in s.transit
  {
    if broken then Step(s, Discard(c)) else AddToPoolStep(s, c)
  }

  lemma {:induction false} CheckedOneMoves<P>(s: State<P>, c: Conn, broken: bool)
    requires c in s.transit
    ensures CheckedOne(s, c, broken).transit == s.transit - {c} || (c in s.growTransit && CheckedOne(s, c, broken).transit == s.transit)
    ensures forall p :: p in CheckedOne(s, c, broken).waiting ==> p in s.waiting
    decreases |s.waiting|
  {
    if s.waiting != [] && !broken && !Accepts(s, s.waiting[0]) {
      CheckedOneMoves(Step(s, Deliver(c)), c, broken);
    }
  }

  /** The connections of the list are put back or replaced, the last one first. */
  ghost function CheckedStep<P>(s: State<P>, conns: seq<Conn>, broken: seq<bool>): State<P>
    requires |broken| == |conns|
    decreases |conns|
  {
    if conns == [] then s else
    var k := |conns| - 1;
    var t := if conns[k] in s.transit then CheckedOne(s, conns[k], broken[k]) else s;
    CheckedStep(t, conns[..k], broken[..k])
  }

  lemma CheckedOneKeeps<P>(s: State<P>, c: Conn, broken: bool)
    requires Inv(s) && c in s.transit
    ensures var t := CheckedOne(s, c, broken); Inv(t) && t.nconns == s.nconns && t.transit == s.transit - {c}
  {
    if broken { StepInv(s, Discard(c)); } else { AddToPoolKeeps(s, c); }
  }

  /** check() loses no connection: every one of its list leaves it, and `_nconns` does not change. */
  lemma {:induction false} CheckedKeeps<P>(s: State<P>, conns: seq<Conn>, broken: seq<bool>)
    requires Inv(s) && |broken| == |conns| && NoDup(conns) && Elems(conns) <= s.transit
    ensures var t := CheckedStep(s, conns, broken);
            Inv(t) && t.nconns == s.nconns && t.transit == s.transit - Elems(conns)
    decreases |conns|
  {
    if conns != [] {
      var k := |conns| - 1;
      ElemsInit(conns);
      CheckedOneKeeps(s, conns[k], broken[k]);
      CheckedKeeps(CheckedOne(s, conns[k], broken[k]), conns[..k], broken[..k]);
    }
  }
}
