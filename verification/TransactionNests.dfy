/** Which exceptions come out of transaction blocks, and what is left of their work. */
module TransactionNests {
  import opened Util
  import opened Transactions

  /** A Rollback meant for a block: for no block in particular, or for this one. */
  ghost predicate MeantFor(x: Exc, id: nat) {
    x == RollbackRequest(None) || x == RollbackRequest(Some(id))
  }

  lemma SwallowsIff(t: Txn, e: Option<Exc>)
    ensures Swallows(t, e) <==> e.Some? && MeantFor(e.value, t.id)
  {
    if e.Some? && e.value.RollbackRequest? && e.value.target.Some? {
      assert e.value == RollbackRequest(Some(e.value.target.value));
    }
  }

  /** An exit in order lets out every exception but a Rollback meant for it; that one too if rolling back fails. */
  lemma ExitLetsOut(c: Conn, t: Txn, x: Exc)
    requires c.numTransactions - 1 == t.stackIndex
    ensures var rolledBack := ExecuteAll(c.server, RollbackCommands(t)).1;
            Exit(c, t, Some(x)).2 == if rolledBack && MeantFor(x, t.id) then None else Some(x)
  {
    SwallowsIff(t, Some(x));
  }

  /** The same of a block in a program: whatever its body did before it raised. */
  lemma BlockLetsOut(c: Conn, id: nat, name: string, force: bool, body: seq<Item>)
    requires !c.server.aborted && (!c.server.inTx ==> c.numTransactions == 0 && c.server.stack == [])
    requires var c1 := Enter(c, NewTxn(id, name, force)).0;
             var (c2, e) := Run(c1, body);
             e.Some? && c2.numTransactions == c1.numTransactions
    ensures var x := Run(Enter(c, NewTxn(id, name, force)).0, body).1.value;
            RunItem(c, Block(id, name, force, body)).1 == if MeantFor(x, id) then None else Some(x)
  {
    SwallowsIff(NewTxn(id, name, force), Run(Enter(c, NewTxn(id, name, force)).0, body).1);
    if c.server.inTx { InnerLetsOut(c, id, name, force, body); } else { OuterLetsOut(c, id, name, force, body); }
  }

  lemma InnerLetsOut(c: Conn, id: nat, name: string, force: bool, body: seq<Item>)
    requires !c.server.aborted && c.server.inTx
    requires var c1 := Enter(c, NewTxn(id, name, force)).0;
             var (c2, e) := Run(c1, body);
             e.Some? && c2.numTransactions == c1.numTransactions
    ensures var e := Run(Enter(c, NewTxn(id, name, force)).0, body).1;
            RunItem(c, Block(id, name, force, body)).1 == if Swallows(NewTxn(id, name, force), e) then None else e
  {
    EnterInner(c, id, name, force);
    var (c1, t, _) := Enter(c, NewTxn(id, name, force));
    var below, w := c.server.stack, World(c.server.db, true, false, c.numTransactions, []);
    var deeper, inside := below + [Savepoint(t.name, w.db)], w.(count := w.count + 1);
    assert deeper + [] == deeper && below + w.left + [Savepoint(t.name, w.db)] == deeper;
    RunMeans(c1, deeper, inside, body);
    var (c2, e) := Run(c1, body);
    var v := Mean(c.autocommit, inside, body).0;
    ExitInner(below, w, id, name, t.name, force, c2, v, e);
    assert v.count == w.count + 1;
  }

  lemma OuterLetsOut(c: Conn, id: nat, name: string, force: bool, body: seq<Item>)
    requires !c.server.aborted && !c.server.inTx && c.numTransactions == 0 && c.server.stack == []
    requires var c1 := Enter(c, NewTxn(id, name, force)).0;
             var (c2, e) := Run(c1, body);
             e.Some? && c2.numTransactions == c1.numTransactions
    ensures var e := Run(Enter(c, NewTxn(id, name, force)).0, body).1;
            RunItem(c, Block(id, name, force, body)).1 == if Swallows(NewTxn(id, name, force), e) then None else e
  {
    EnterOuter(c, id, name, force);
    var c1 := Enter(c, NewTxn(id, name, force)).0;
    var w, inside := World(c.server.db, false, false, 0, []), World(c.server.db, true, false, 1, c1.server.stack);
    assert [] + c1.server.stack == c1.server.stack;
    RunMeans(c1, [], inside, body);
    var (c2, e) := Run(c1, body);
    var v := Mean(c.autocommit, inside, body).0;
    ExitOuter(w, id, name, force, c2, v, e);
    assert v.count == 1;
  }

  /** A transaction object can be entered only once: the second time nothing is sent. */
  lemma EnteredOnce(c: Conn, d: Conn, t: Txn)
    ensures var t1 := Enter(c, t).1; Enter(d, t1) == (d, t1, Some(UsedTwice))
  {
  }

  /** Leaving marks the object as left, in order or not, and changes nothing else of it. */
  lemma LeftForGood(c: Conn, t: Txn, e: Option<Exc>)
    ensures Exit(c, t, e).1 == t.(exited := true)
    ensures Exit(c, t, e).0.numTransactions == c.numTransactions - 1 && Exit(c, t, e).0.autocommit == c.autocommit
  {
  }

  // ---------- nests of blocks ----------

  /** A block around others: the statements before the next block, and those after it. */
  datatype Layer = Layer(id: nat, name: string, before: seq<int>, after: seq<int>)

  function Dos(ops: seq<int>): seq<Item> {
    if ops == [] then [] else [Do(ops[0])] + Dos(ops[1..])
  }

  /** Blocks inside one another, the outermost first, with `core` in the innermost one. */
  function Nest(layers: seq<Layer>, core: Item): seq<Item> {
    if layers == [] then [core] else
    var l := layers[0];
    [Block(l.id, l.name, false, Dos(l.before) + Nest(layers[1..], core) + Dos(l.after))]
  }

  /** What the blocks do before the core is reached, and what is left to do after it, inside out. */
  function Befores(layers: seq<Layer>): seq<int> {
    if layers == [] then [] else layers[0].before + Befores(layers[1..])
  }

  function Afters(layers: seq<Layer>): seq<int> {
    if layers == [] then [] else Afters(layers[1..]) + layers[0].after
  }

  /** The innermost block that an exception is meant for. */
  ghost function StopsAt(layers: seq<Layer>, x: Exc): (r: Option<nat>)
    ensures r.Some? ==> r.value < |layers| && MeantFor(x, layers[r.value].id)
    ensures forall i :: (if r.Some? then r.value else -1) < i < |layers| ==> !MeantFor(x, layers[i].id)
  {
    if layers == [] then None
    else if MeantFor(x, layers[|layers| - 1].id) then Some(|layers| - 1)
    else StopsAt(layers[..|layers| - 1], x)
  }

  /** What raises: raise, or a statement that the server refuses. */
  ghost predicate Raises(core: Item, x: Exc) { core == Raise(x) || (core == Fail && x == SqlError) }

  lemma {:induction false} DosPlain(ops: seq<int>, rest: seq<Item>)
    ensures Plain(Dos(ops) + rest) <==> Plain(rest)
  {
    if ops == [] {
      assert Dos(ops) + rest == rest;
    } else {
      assert (Dos(ops) + rest)[1..] == Dos(ops[1..]) + rest;
      DosPlain(ops[1..], rest);
    }
  }

  lemma DoFirst(db: Db, op: int, rest: seq<Item>)
    ensures PlainMean(db, [Do(op)] + rest) == PlainMean(db + [op], rest)
  {
    assert ([Do(op)] + rest)[1..] == rest;
  }

  lemma {:induction false} DosMean(db: Db, ops: seq<int>, rest: seq<Item>)
    ensures PlainMean(db, Dos(ops) + rest) == PlainMean(db + ops, rest)
    decreases |ops|
  {
    if ops == [] {
      assert Dos(ops) + rest == rest && db + ops == db;
    } else {
      assert Dos(ops) + rest == [Do(ops[0])] + (Dos(ops[1..]) + rest);
      assert db + ops == db + [ops[0]] + ops[1..];
      DoFirst(db, ops[0], Dos(ops[1..]) + rest);
      DosMean(db + [ops[0]], ops[1..], rest);
    }
  }

  lemma AllDone(db: Db, ops: seq<int>)
    ensures PlainMean(db, Dos(ops)) == (db + ops, None)
  {
    DosMean(db, ops, []);
    assert Dos(ops) + [] == Dos(ops);
  }

  lemma {:induction false} NestPlain(layers: seq<Layer>, core: Item, x: Exc, after: seq<int>)
    requires Raises(core, x)
    ensures Plain(Nest(layers, core) + Dos(after))
    decreases |layers|
  {
    DosPlain(after, []);
    assert Dos(after) + [] == Dos(after);
    assert (Nest(layers, core) + Dos(after))[1..] == Dos(after);
    if layers != [] {
      var l := layers[0];
      NestPlain(layers[1..], core, x, l.after);
      DosPlain(l.before, Nest(layers[1..], core) + Dos(l.after));
      Regroup(Dos(l.before), Nest(layers[1..], core), Dos(l.after), []);
    }
  }

  lemma {:induction false} StopsAtRest(layers: seq<Layer>, x: Exc)
    requires layers != []
    ensures var r, rest := StopsAt(layers, x), StopsAt(layers[1..], x);
            r == if rest.Some? then Some(rest.value + 1) else if MeantFor(x, layers[0].id) then Some(0) else None
  {
    var r, rest := StopsAt(layers, x), StopsAt(layers[1..], x);
    if rest.Some? { assert layers[rest.value + 1] == layers[1..][rest.value]; }
    if r.Some? && r.value > 0 { assert layers[r.value] == layers[1..][r.value - 1]; }
    assert forall i :: 0 <= i < |layers| - 1 ==> layers[1..][i] == layers[i + 1];
  }

  /** The statements of the blocks outside the one that stops the exception. */
  ghost function Kept(layers: seq<Layer>, x: Exc): seq<int> {
    var r := StopsAt(layers, x);
    if r.None? then [] else Befores(layers[..r.value]) + Afters(layers[..r.value])
  }

  lemma KeptRest(layers: seq<Layer>, x: Exc)
    requires layers != []
    ensures StopsAt(layers[1..], x).Some? ==> Kept(layers, x) == layers[0].before + Kept(layers[1..], x) + layers[0].after
    ensures StopsAt(layers[1..], x).None? ==> Kept(layers, x) == []
  {
    StopsAtRest(layers, x);
    var rest := StopsAt(layers[1..], x);
    if rest.Some? {
      var j := rest.value;
      assert layers[..j + 1][1..] == layers[1..][..j] && layers[..j + 1][0] == layers[0];
      var b, a := Befores(layers[1..][..j]), Afters(layers[1..][..j]);
      assert layers[0].before + b + (a + layers[0].after) == layers[0].before + (b + a) + layers[0].after;
    }
  }

  lemma CoreMeans(db: Db, core: Item, x: Exc)
    requires Raises(core, x)
    ensures PlainMean(db, [core]) == (db, Some(x))
  {
    OneItemMean(db, core);
  }

  lemma {:induction false} NestMeans(db: Db, layers: seq<Layer>, core: Item, x: Exc)
    requires Raises(core, x)
    ensures PlainMean(db, Nest(layers, core)) == (db + Kept(layers, x), if StopsAt(layers, x).Some? then None else Some(x))
    decreases |layers|
  {
    if layers == [] {
      CoreMeans(db, core, x);
      assert db + [] == db;
    } else {
      var l, rest := layers[0], layers[1..];
      NestMeans(db + l.before, rest, core, x);
      LayerMeans(db, l, Nest(rest, core));
      StopsAtRest(layers, x);
      KeptRest(layers, x);
      Grown(db, l.before, Kept(rest, x), l.after);
    }
  }

  lemma Grown(db: Db, before: seq<int>, kept: seq<int>, after: seq<int>)
    ensures db + before + kept + after == db + (before + kept + after)
    ensures db + [] == db
  {
  }

  /** One layer around an item that has been run. */
  lemma LayerMeans(db: Db, l: Layer, rest: seq<Item>)
    requires |rest| == 1
    ensures var (v, e) := PlainMean(db + l.before, rest);
            PlainMean(db, [Block(l.id, l.name, false, Dos(l.before) + rest + Dos(l.after))])
            == if e.None? then (v + l.after, None) else (db, if MeantFor(e.value, l.id) then None else e)
  {
    Regroup(Dos(l.before), rest, Dos(l.after), []);
    DosMean(db, l.before, rest + Dos(l.after));
    OneThen(db + l.before, rest, Dos(l.after));
    AllDone(PlainMean(db + l.before, rest).0, l.after);
    BlockMeans(db, l, Dos(l.before) + rest + Dos(l.after));
  }

  /** One item before others. */
  lemma OneThen(db: Db, one: seq<Item>, rest: seq<Item>)
    requires |one| == 1
    ensures var (v, e) := PlainMean(db, one);
            PlainMean(db, one + rest) == if e.Some? then (v, e) else PlainMean(v, rest)
  {
    assert (one + rest)[1..] == rest && one[1..] == [];
    var (v, e) := PlainMeanItem(db, one[0]);
    assert PlainMean(v, []) == (v, None);
  }

  lemma OneItemMean(db: Db, item: Item)
    ensures PlainMean(db, [item]) == PlainMeanItem(db, item)
  {
    assert [item][1..] == [];
    var v := PlainMeanItem(db, item).0;
    assert PlainMean(v, []) == (v, None);
  }

  lemma BlockMeans(db: Db, l: Layer, body: seq<Item>)
    ensures var (v, e) := PlainMean(db, body);
            PlainMean(db, [Block(l.id, l.name, false, body)])
            == if e.None? then (v, None) else (db, if MeantFor(e.value, l.id) then None else e)
  {
    var block := Block(l.id, l.name, false, body);
    SwallowsIff(NewTxn(l.id, l.name, false), PlainMean(db, body).1);
    OneItemMean(db, block);
  }

  /**
   An exception raised inside a nest of blocks goes out through the blocks it is not meant for, which
   roll back, and stops at the innermost one it is meant for: the blocks around that one go on and keep
   their work. Nothing else is kept, and an exception meant for none of them comes out.
   */
  lemma NestStops(c: Conn, layers: seq<Layer>, core: Item, x: Exc)
    requires !c.server.aborted && (!c.server.inTx ==> c.numTransactions == 0 && c.server.stack == [])
    requires Raises(core, x)
    ensures var (d, e) := Run(c, Nest(layers, core));
            var r := StopsAt(layers, x);
            && e == (if r.Some? then None else Some(x))
            && d.server.db == c.server.db + if r.None? then [] else Befores(layers[..r.value]) + Afters(layers[..r.value])
  {
    NestPlain(layers, core, x, []);
    assert Nest(layers, core) + Dos([]) == Nest(layers, core);
    PlainRuns(c, Nest(layers, core));
    NestMeans(c.server.db, layers, core, x);
  }

  /** Errors come out of every nest, and nothing of its work is kept. */
  lemma ErrorsComeOut(c: Conn, layers: seq<Layer>, core: Item, x: Exc)
    requires !c.server.aborted && (!c.server.inTx ==> c.numTransactions == 0 && c.server.stack == [])
    requires Raises(core, x) && (x == UserError || x == SqlError)
    ensures var (d, e) := Run(c, Nest(layers, core)); e == Some(x) && d.server.db == c.server.db
  {
    NestStops(c, layers, core, x);
    assert c.server.db + [] == c.server.db;
  }

  lemma TargetIs(layers: seq<Layer>, j: nat)
    requires j < |layers| && forall i :: j < i < |layers| ==> layers[i].id != layers[j].id
    ensures StopsAt(layers, RollbackRequest(Some(layers[j].id))) == Some(j)
  {
    var x := RollbackRequest(Some(layers[j].id));
    assert MeantFor(x, layers[j].id);
    assert forall i :: j < i < |layers| ==> !MeantFor(x, layers[i].id);
  }

  /** A Rollback aimed at one of the blocks passes those inside it and stops there. */
  lemma RollbackStopsAtTarget(c: Conn, layers: seq<Layer>, j: nat)
    requires !c.server.aborted && (!c.server.inTx ==> c.numTransactions == 0 && c.server.stack == [])
    requires j < |layers| && forall i :: j < i < |layers| ==> layers[i].id != layers[j].id
    ensures var (d, e) := Run(c, Nest(layers, Raise(RollbackRequest(Some(layers[j].id)))));
            e == None && d.server.db == c.server.db + (Befores(layers[..j]) + Afters(layers[..j]))
  {
    var x := RollbackRequest(Some(layers[j].id));
    TargetIs(layers, j);
    NestStops(c, layers, Raise(x), x);
  }
}
