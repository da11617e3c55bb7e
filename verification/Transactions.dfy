/** Transaction blocks: what a nest of them does to the database, through the commands it sends. */
module Transactions {

  // The server has a stack of named savepoints. The state of the database is the list of the
  // statements that are in effect.

  import opened Util

  type Db = seq<int>

  // ---------- the server ----------

  datatype Savepoint = Savepoint(name: string, db: Db)

  datatype Server = Server(
    inTx: bool,              // false is the IDLE status
    aborted: bool,           // the INERROR status
    start: Db,               // the state at BEGIN
    db: Db,                  // the state the session sees
    stack: seq<Savepoint>)   // the last one is the most recent

  datatype Command =
    | Begin
    | Commit
    | RollbackAll
    | MakeSavepoint(name: string)
    | Release(name: string)
    | RollbackTo(name: string)

  /** The most recent savepoint with a name. */
  function FindLast(stack: seq<Savepoint>, name: string): (r: Option<nat>)
    ensures r.Some? ==> r.value < |stack| && stack[r.value].name == name
    ensures r.Some? ==> forall i :: r.value < i < |stack| ==> stack[i].name != name
    ensures r.None? ==> forall i :: 0 <= i < |stack| ==> stack[i].name != name
  {
    if stack == [] then None
    else if stack[|stack| - 1].name == name then Some(|stack| - 1)
    else FindLast(stack[..|stack| - 1], name)
  }

  function Failed(s: Server): Server {
    if s.inTx then s.(aborted := true) else s
  }

  function Ended(s: Server, db: Db): Server {
    s.(inTx := false, aborted := false, db := db, stack := [])
  }

  /** What the server does with a command, and whether it succeeds. */
  function Execute(s: Server, c: Command): (Server, bool) {
    match c
    case Begin =>
      if s.aborted then (s, false)
      else if s.inTx then (s, true)
      else (s.(inTx := true, start := s.db, stack := []), true)
    case Commit =>
      if !s.inTx then (s, true)
      else if s.aborted then (Ended(s, s.start), true)
      else (Ended(s, s.db), true)
    case RollbackAll =>
      if !s.inTx then (s, true) else (Ended(s, s.start), true)
    case MakeSavepoint(name) =>
      if !s.inTx || s.aborted then (Failed(s), false)
      else (s.(stack := s.stack + [Savepoint(name, s.db)]), true)
    case Release(name) =>
      if !s.inTx || s.aborted then (Failed(s), false) else
      var i := FindLast(s.stack, name);
      if i.None? then (Failed(s), false) else (s.(stack := s.stack[..i.value]), true)
    case RollbackTo(name) =>
      if !s.inTx then (Failed(s), false) else
      var i := FindLast(s.stack, name);
      if i.None? then (Failed(s), false)
      else (s.(aborted := false, db := s.stack[i.value].db, stack := s.stack[..i.value + 1]), true)
  }

  /** Commands sent one after the other, up to the first that fails. */
  function ExecuteAll(s: Server, cs: seq<Command>): (Server, bool)
    decreases |cs|
  {
    if cs == [] then (s, true) else
    var (t, ok) := Execute(s, cs[0]);
    if ok then ExecuteAll(t, cs[1..]) else (t, false)
  }

  // ---------- one transaction object ----------

  datatype Conn = Conn(server: Server, autocommit: bool, numTransactions: int)

  datatype Exc =
    | SqlError
    | UserError
    | RollbackRequest(target: Option<nat>)   // None: the innermost block
    | OutOfOrder
    | UsedTwice
    | AssertionFails

  datatype Txn = Txn(id: nat, name: string, force: bool, entered: bool, exited: bool, outer: bool, stackIndex: int)

  function NewTxn(id: nat, name: string, force: bool): Txn {
    Txn(id, name, force, false, false, false, -1)
  }

  function DefaultName(numTransactions: int): string {
    "_pg3_" + Decimal(Max(0, numTransactions + 1))
  }

  /** _push_savepoint */
  function Pushed(c: Conn, t: Txn): (Conn, Txn) {
    var outer := !c.server.inTx;
    var name := if !outer && t.name == "" then DefaultName(c.numTransactions) else t.name;
    (c.(numTransactions := c.numTransactions + 1),
     t.(entered := true, outer := outer, name := name, stackIndex := c.numTransactions))
  }

  function EnterCommands(t: Txn): seq<Command> {
    (if t.outer then [Begin] else []) + if t.name != "" then [MakeSavepoint(t.name)] else []
  }

  function CommitCommands(t: Txn): seq<Command> {
    (if t.name != "" && !t.outer then [Release(t.name)] else []) + if t.outer then [Commit] else []
  }

  function RollbackCommands(t: Txn): seq<Command> {
    (if t.name != "" && !t.outer then [RollbackTo(t.name), Release(t.name)] else [])
    + if t.outer then [RollbackAll] else []
  }

  /** __enter__; an outer block asserts that no other one is counted. */
  function Enter(c: Conn, t: Txn): (Conn, Txn, Option<Exc>) {
    if t.entered then (c, t, Some(UsedTwice))
    else if !c.server.inTx && c.numTransactions != 0 then (c, t.(entered := true, outer := true), Some(AssertionFails)) else
    var (c1, t1) := Pushed(c, t);
    var (s, ok) := ExecuteAll(c1.server, EnterCommands(t1));
    (c1.(server := s), t1, if ok then None else Some(SqlError))
  }

  /** Does a Rollback exception stop at this block? */
  predicate Swallows(t: Txn, exc: Option<Exc>) {
    exc.Some? && exc.value.RollbackRequest? && (exc.value.target.None? || exc.value.target.value == t.id)
  }

  /** __exit__: the exception that comes out of the with statement, if any. */
  function Exit(c: Conn, t: Txn, exc: Option<Exc>): (Conn, Txn, Option<Exc>) {
    var c1 := c.(numTransactions := c.numTransactions - 1);
    var t1 := t.(exited := true);
    if c1.numTransactions != t.stackIndex then (c1, t1, Some(OutOfOrder))
    else if exc.None? && !t.force then
      var (s, ok) := ExecuteAll(c1.server, CommitCommands(t));
      (c1.(server := s), t1, if ok then None else Some(SqlError))
    else
      var (s, ok) := ExecuteAll(c1.server, RollbackCommands(t));
      (c1.(server := s), t1, if ok && Swallows(t, exc) then None else exc)
  }

  // ---------- programs ----------

  datatype Item =
    | Do(op: int)       // a statement that succeeds
    | Fail              // a statement the server refuses
    | Raise(exc: Exc)
    | Try(body: seq<Item>)   // try: body, except Exception: pass
    | Block(id: nat, name: string, force: bool, body: seq<Item>)

  /** A statement of a cursor: it opens a transaction first, unless in autocommit. */
  function RunStatement(c: Conn, op: Option<int>): (Conn, Option<Exc>) {
    var s := if c.autocommit || c.server.inTx then c.server else Execute(c.server, Begin).0;
    if s.aborted then (c.(server := s), Some(SqlError))
    else if op.None? then (c.(server := Failed(s)), Some(SqlError))
    else (c.(server := s.(db := s.db + [op.value])), None)
  }

  function RunItem(c: Conn, item: Item): (Conn, Option<Exc>)
    decreases item, 0
  {
    match item
    case Do(op) => RunStatement(c, Some(op))
    case Fail => RunStatement(c, None)
    case Raise(e) => (c, Some(e))
    case Try(body) => (Run(c, body).0, None)
    case Block(id, name, force, body) =>
      var (c1, t1, e1) := Enter(c, NewTxn(id, name, force));
      if e1.Some? then (c1, e1) else
      var (c2, e2) := Run(c1, body);
      var (c3, t3, e3) := Exit(c2, t1, e2);
      (c3, e3)
  }

  function Run(c: Conn, items: seq<Item>): (Conn, Option<Exc>)
    decreases items
  {
    if items == [] then (c, None) else
    var (c1, e) := RunItem(c, items[0]);
    if e.Some? then (c1, e) else Run(c1, items[1..])
  }

  // ---------- what the blocks mean ----------

  /**
   What a program sees: the data, whether a transaction is open and whether it is aborted, how many
   blocks are counted, and the savepoints that blocks inside the current one have left behind.
   */
  datatype World = World(db: Db, tx: bool, aborted: bool, count: int, left: seq<Savepoint>)

  function MeanStatement(auto: bool, w: World, op: Option<int>): (World, Option<Exc>) {
    var v := w.(tx := w.tx || !auto);
    if op.None? || v.aborted then (v.(aborted := v.tx), Some(SqlError)) else (v.(db := v.db + [op.value]), None)
  }

  /** The end of the outermost block: all or nothing, and nothing if the transaction was aborted. */
  function LeaveOuter(w: World, t: Txn, v: World, e: Option<Exc>): (World, Option<Exc>) {
    if v.count != 1 then (v.(count := v.count - 1), Some(OutOfOrder))
    else if e.None? && !t.force && !v.aborted then (World(v.db, false, false, 0, []), None)
    else (World(w.db, false, false, 0, []), if Swallows(t, e) then None else e)
  }

  /**
   The end of a block inside another one. `own` is its savepoint: the block ends at the last savepoint
   of that name, which is its own unless one was left behind inside of it.
   */
  function LeaveInner(w: World, t: Txn, own: Savepoint, v: World, e: Option<Exc>): (World, Option<Exc>) {
    var s := [own] + v.left;
    assert s[0] == own;
    var j := FindLast(s, own.name);
    if v.count != w.count + 1 then (v.(count := v.count - 1, left := w.left + s), Some(OutOfOrder))
    else if e.None? && !t.force then
      if v.aborted then (v.(count := w.count, left := w.left + s), Some(SqlError))
      else (v.(count := w.count, left := w.left + s[..j.value]), None)
    else
      (World(s[j.value].db, v.tx, false, w.count, w.left + s[..j.value]), if Swallows(t, e) then None else e)
  }

  function NameFor(w: World, name: string): string { if name == "" then DefaultName(w.count) else name }

  function MeanItem(auto: bool, w: World, item: Item): (World, Option<Exc>)
    decreases item, 0
  {
    match item
    case Do(op) => MeanStatement(auto, w, Some(op))
    case Fail => MeanStatement(auto, w, None)
    case Raise(e) => (w, Some(e))
    case Try(body) => (Mean(auto, w, body).0, None)
    case Block(id, name, force, body) =>
      var t := NewTxn(id, name, force);
      if !w.tx then
        if w.count != 0 then (w, Some(AssertionFails)) else
        var inside := World(w.db, true, false, 1, if name == "" then [] else [Savepoint(name, w.db)]);
        var (v, e) := Mean(auto, inside, body);
        LeaveOuter(w, t, v, e)
      else if w.aborted then (w.(count := w.count + 1), Some(SqlError))
      else
        var (v, e) := Mean(auto, w.(count := w.count + 1, left := []), body);
        LeaveInner(w, t, Savepoint(NameFor(w, name), w.db), v, e)
  }

  function Mean(auto: bool, w: World, items: seq<Item>): (World, Option<Exc>)
    decreases items
  {
    if items == [] then (w, None) else
    var (v, e) := MeanItem(auto, w, items[0]);
    if e.Some? then (v, e) else Mean(auto, v, items[1..])
  }

  /** Only a transaction can be aborted or have savepoints. */
  ghost predicate Sane(w: World) {
    (w.aborted ==> w.tx) && (!w.tx ==> w.left == [])
  }

  /** The connection is as the world says; below the savepoints left behind are those of the blocks around. */
  ghost predicate Shows(c: Conn, below: seq<Savepoint>, w: World) {
    && Sane(w) && (!w.tx ==> below == [])
    && c.server.inTx == w.tx && c.server.aborted == w.aborted && c.server.db == w.db
    && c.numTransactions == w.count && c.server.stack == below + w.left
  }

  /** `d` comes after `c`: a transaction that was open still is. */
  ghost predicate Follows(c: Conn, d: Conn) {
    d.autocommit == c.autocommit && (c.server.inTx ==> d.server.inTx && d.server.start == c.server.start)
  }

  lemma {:induction false} FindAbove(below: seq<Savepoint>, s: seq<Savepoint>, name: string)
    requires FindLast(s, name).Some?
    ensures FindLast(below + s, name) == Some(|below| + FindLast(s, name).value)
    decreases |s|
  {
    assert (below + s)[|below + s| - 1] == s[|s| - 1];
    if s[|s| - 1].name != name {
      assert (below + s)[..|below + s| - 1] == below + s[..|s| - 1];
      FindAbove(below, s[..|s| - 1], name);
    }
  }

  lemma SlicesAbove(below: seq<Savepoint>, above: seq<Savepoint>, j: nat)
    requires j < |above|
    ensures (below + above)[..|below| + j] == below + above[..j]
    ensures (below + above)[..|below| + j + 1] == below + above[..j + 1]
    ensures (below + above)[|below| + j] == above[j]
  {
  }

  /** RELEASE ends the last savepoint of the name and those above it. */
  lemma ReleaseInner(s: Server, below: seq<Savepoint>, above: seq<Savepoint>, name: string)
    requires s.inTx && s.stack == below + above && FindLast(above, name).Some?
    ensures Execute(s, Release(name)) ==
              if s.aborted then (s, false) else (s.(stack := below + above[..FindLast(above, name).value]), true)
  {
    FindAbove(below, above, name);
    SlicesAbove(below, above, FindLast(above, name).value);
  }

  lemma RollbackToInner(s: Server, below: seq<Savepoint>, above: seq<Savepoint>, name: string)
    requires s.inTx && s.stack == below + above && FindLast(above, name).Some?
    ensures var j := FindLast(above, name).value;
            Execute(s, RollbackTo(name)) == (s.(db := above[j].db, aborted := false, stack := below + above[..j + 1]), true)
  {
    FindAbove(below, above, name);
    SlicesAbove(below, above, FindLast(above, name).value);
  }

  lemma FindLastOne(s: seq<Savepoint>, name: string)
    requires s != [] && s[|s| - 1].name == name
    ensures FindLast(s, name) == Some(|s| - 1)
  {
  }

  lemma PrefixTwice<T>(s: seq<T>, j: nat)
    requires j < |s|
    ensures s[..j + 1][..j] == s[..j]
  {
  }

  /** ROLLBACK TO and RELEASE go back to the last savepoint of the name and end it. */
  lemma RollbackInner(s: Server, below: seq<Savepoint>, above: seq<Savepoint>, name: string)
    requires s.inTx && s.stack == below + above && FindLast(above, name).Some?
    ensures var j := FindLast(above, name).value;
            ExecuteAll(s, [RollbackTo(name), Release(name)])
            == (s.(stack := below + above[..j], db := above[j].db, aborted := false), true)
  {
    var j := FindLast(above, name).value;
    RollbackToInner(s, below, above, name);
    FindLastOne(above[..j + 1], name);
    PrefixTwice(above, j);
    var t := Execute(s, RollbackTo(name)).0;
    ReleaseInner(t, below, above[..j + 1], name);
    Two(s, RollbackTo(name), Release(name));
  }

  lemma One(s: Server, c: Command)
    ensures ExecuteAll(s, [c]) == Execute(s, c)
  {
    var (t, ok) := Execute(s, c);
    assert [c][1..] == [];
    assert ExecuteAll(t, []) == (t, true);
  }

  lemma Two(s: Server, c: Command, d: Command)
    ensures Execute(s, c).1 ==> ExecuteAll(s, [c, d]) == Execute(Execute(s, c).0, d)
  {
    assert [c, d][1..] == [d];
    One(Execute(s, c).0, d);
  }

  /** The outermost block begins a transaction, with a savepoint in it if the block has a name. */
  lemma EnterOuter(c: Conn, id: nat, name: string, force: bool)
    requires !c.server.inTx && !c.server.aborted && c.numTransactions == 0 && c.server.stack == []
    ensures var (d, t, e) := Enter(c, NewTxn(id, name, force));
            && e.None? && t == Txn(id, name, force, true, false, true, 0)
            && d == c.(numTransactions := 1, server := c.server.(inTx := true, start := c.server.db,
                         stack := if name == "" then [] else [Savepoint(name, c.server.db)]))
  {
    var (c1, t1) := Pushed(c, NewTxn(id, name, force));
    if name == "" {
      assert EnterCommands(t1) == [Begin];
      One(c1.server, Begin);
    } else {
      assert EnterCommands(t1) == [Begin, MakeSavepoint(name)];
      Two(c1.server, Begin, MakeSavepoint(name));
      assert [] + [Savepoint(name, c.server.db)] == [Savepoint(name, c.server.db)];
    }
  }

  /** A block inside a transaction makes a savepoint; on an aborted one that fails, but the block is counted. */
  lemma EnterInner(c: Conn, id: nat, name: string, force: bool)
    requires c.server.inTx
    ensures var (d, t, e) := Enter(c, NewTxn(id, name, force));
            var x := if name == "" then DefaultName(c.numTransactions) else name;
            && t == Txn(id, x, force, true, false, false, c.numTransactions)
            && e == (if c.server.aborted then Some(SqlError) else None)
            && d == c.(numTransactions := c.numTransactions + 1,
                       server := if c.server.aborted then c.server
                                 else c.server.(stack := c.server.stack + [Savepoint(x, c.server.db)]))
  {
    var (c1, t1) := Pushed(c, NewTxn(id, name, force));
    assert EnterCommands(t1) == [MakeSavepoint(t1.name)];
    One(c1.server, MakeSavepoint(t1.name));
  }

  /** Leaving the outermost block on any connection, with any outcome of its body. */
  lemma ExitOuter(w: World, id: nat, name: string, force: bool, d: Conn, v: World, e: Option<Exc>)
    requires Shows(d, [], v) && v.tx && d.server.start == w.db
    ensures var t := Txn(id, name, force, true, false, true, 0);
            var (f, _, x) := Exit(d, t, e);
            var (u, y) := LeaveOuter(w, NewTxn(id, name, force), v, e);
            Shows(f, [], u) && x == y && f.autocommit == d.autocommit
  {
    var t := Txn(id, name, force, true, false, true, 0);
    if v.count == 1 {
      assert CommitCommands(t) == [Commit] && RollbackCommands(t) == [RollbackAll];
      One(d.server, Commit);
      One(d.server, RollbackAll);
    }
  }

  /** Leaving a block inside another one, with any outcome of its body. */
  lemma ExitInner(below: seq<Savepoint>, w: World, id: nat, given: string, name: string, force: bool, d: Conn, v: World, e: Option<Exc>)
    requires name != "" && v.tx && Sane(v) && w.tx
    requires Shows(d, below + w.left + [Savepoint(name, w.db)], v)
    ensures var t := Txn(id, name, force, true, false, false, w.count);
            var (f, _, x) := Exit(d, t, e);
            var (u, y) := LeaveInner(w, NewTxn(id, given, force), Savepoint(name, w.db), v, e);
            Shows(f, below, u) && x == y && Follows(d, f)
  {
    var t := Txn(id, name, force, true, false, false, w.count);
    var own := [Savepoint(name, w.db)];
    var above := own + v.left;
    Regroup(below, w.left, own, v.left);
    assert d.server.stack == (below + w.left) + above;
    assert above[0].name == name;
    var j := FindLast(above, name).value;
    Regroup(below, w.left, above[..j], []);
    Regroup(below, w.left, above, []);
    assert CommitCommands(t) == [Release(name)] && RollbackCommands(t) == [RollbackTo(name), Release(name)];
    ReleaseInner(d.server, below + w.left, above, name);
    One(d.server, Release(name));
    RollbackInner(d.server, below + w.left, above, name);
  }

  lemma StatementMeans(c: Conn, below: seq<Savepoint>, w: World, op: Option<int>)
    requires Shows(c, below, w)
    ensures var (d, e) := RunStatement(c, op);
            var (v, x) := MeanStatement(c.autocommit, w, op);
            e == x && Shows(d, below, v) && Follows(c, d)
  {
  }

  lemma {:induction false} RunItemMeans(c: Conn, below: seq<Savepoint>, w: World, item: Item)
    requires Shows(c, below, w)
    ensures var (d, e) := RunItem(c, item);
            var (v, x) := MeanItem(c.autocommit, w, item);
            e == x && Shows(d, below, v) && Follows(c, d)
    decreases item, 1
  {
    match item
    case Do(op) => StatementMeans(c, below, w, Some(op));
    case Fail => StatementMeans(c, below, w, None);
    case Raise(_) =>
    case Try(body) => RunMeans(c, below, w, body);
    case Block(id, name, force, body) =>
      if !w.tx {
        if w.count == 0 {
          EnterOuter(c, id, name, force);
          var c1 := Enter(c, NewTxn(id, name, force)).0;
          var inside := World(w.db, true, false, 1, c1.server.stack);
          assert [] + c1.server.stack == c1.server.stack;
          RunMeans(c1, [], inside, body);
          var (c2, e2) := Run(c1, body);
          ExitOuter(w, id, name, force, c2, Mean(c.autocommit, inside, body).0, e2);
        }
      } else {
        EnterInner(c, id, name, force);
        if !w.aborted { InnerMeans(c, below, w, item); }
      }
  }

  lemma {:induction false} InnerMeans(c: Conn, below: seq<Savepoint>, w: World, item: Item)
    requires Shows(c, below, w) && item.Block? && w.tx && !w.aborted
    ensures var (d, e) := RunItem(c, item);
            var (v, x) := MeanItem(c.autocommit, w, item);
            e == x && Shows(d, below, v) && Follows(c, d)
    decreases item, 0
  {
    var Block(id, name, force, body) := item;
    EnterInner(c, id, name, force);
    var (c1, t1, _) := Enter(c, NewTxn(id, name, force));
    var own := Savepoint(t1.name, w.db);
    var deeper, inside := below + w.left + [own], w.(count := w.count + 1, left := []);
    assert deeper + [] == deeper;
    RunMeans(c1, deeper, inside, body);
    var (c2, e2) := Run(c1, body);
    ExitInner(below, w, id, name, t1.name, force, c2, Mean(c.autocommit, inside, body).0, e2);
  }

  /**
   Running any program of blocks, with any savepoint names and any errors caught anywhere, gives the
   data, the state of the transaction and the exception of the recursive meaning.
   */
  lemma {:induction false} RunMeans(c: Conn, below: seq<Savepoint>, w: World, items: seq<Item>)
    requires Shows(c, below, w)
    ensures var (d, e) := Run(c, items);
            var (v, x) := Mean(c.autocommit, w, items);
            e == x && Shows(d, below, v) && Follows(c, d)
    decreases items
  {
    if items != [] {
      RunItemMeans(c, below, w, items[0]);
      var (c1, e) := RunItem(c, items[0]);
      if e.None? {
        RunMeans(c1, below, MeanItem(c.autocommit, w, items[0]).0, items[1..]);
      }
    }
  }

  // ---------- programs that catch errors around whole blocks ----------

  /** Errors are caught, if at all, around a block, so after its rollback. */
  predicate Plain(items: seq<Item>)
    decreases items
  {
    items != [] ==> PlainItem(items[0]) && Plain(items[1..])
  }

  predicate PlainItem(item: Item)
    decreases item
  {
    match item
    case Try(body) => |body| == 1 && body[0].Block? && PlainItem(body[0])
    case Block(_, _, _, body) => Plain(body)
    case _ => true
  }

  /** A block that commits keeps what its body did; a block that rolls back contributes nothing. */
  function PlainMeanItem(db: Db, item: Item): (Db, Option<Exc>)
    decreases item, 0
  {
    match item
    case Do(op) => (db + [op], None)
    case Fail => (db, Some(SqlError))
    case Raise(e) => (db, Some(e))
    case Try(body) => (PlainMean(db, body).0, None)
    case Block(id, name, force, body) =>
      var (db1, e) := PlainMean(db, body);
      (if e.None? && !force then db1 else db, if Swallows(NewTxn(id, name, force), e) then None else e)
  }

  function PlainMean(db: Db, items: seq<Item>): (Db, Option<Exc>)
    decreases items
  {
    if items == [] then (db, None) else
    var (db1, e) := PlainMeanItem(db, items[0]);
    if e.Some? then (db1, e) else PlainMean(db1, items[1..])
  }

  /** Ready for a statement: outside a transaction no block is counted and no savepoint exists. */
  ghost predicate Healthy(w: World) {
    !w.aborted && (!w.tx ==> w.count == 0 && w.left == [])
  }

  ghost predicate Resumes(w: World, v: World) {
    v.count == w.count && v.left == w.left && Sane(v) && (w.tx ==> v.tx)
  }

  lemma {:induction false} PlainItemMeans(auto: bool, w: World, item: Item)
    requires Healthy(w) && PlainItem(item)
    ensures var (v, e) := MeanItem(auto, w, item);
            && Resumes(w, v) && (v.db, e) == PlainMeanItem(w.db, item)
            && (e.None? || item.Block? ==> Healthy(v))
    decreases item, 0
  {
    match item
    case Do(_) =>
    case Fail =>
    case Raise(_) =>
    case Try(body) =>
      PlainItemMeans(auto, w, body[0]);
      assert body[1..] == [];
      assert Mean(auto, w, body).0 == MeanItem(auto, w, body[0]).0 by {
        assert Mean(auto, MeanItem(auto, w, body[0]).0, body[1..]).0 == MeanItem(auto, w, body[0]).0;
      }
      assert PlainMean(w.db, body).0 == PlainMeanItem(w.db, body[0]).0 by {
        assert PlainMean(PlainMeanItem(w.db, body[0]).0, body[1..]).0 == PlainMeanItem(w.db, body[0]).0;
      }
    case Block(id, name, force, body) =>
      if w.tx {
        PlainMeans(auto, w.(count := w.count + 1, left := []), body);
        var own := [Savepoint(NameFor(w, name), w.db)];
        assert own + [] == own && own[..0] == [] && w.left + [] == w.left;
        assert FindLast(own, own[0].name) == Some(0);
      } else {
        PlainMeans(auto, World(w.db, true, false, 1, if name == "" then [] else [Savepoint(name, w.db)]), body);
      }
  }

  /** Such programs mean what their blocks promise, whatever savepoint names they use. */
  lemma {:induction false} PlainMeans(auto: bool, w: World, items: seq<Item>)
    requires Healthy(w) && Plain(items)
    ensures var (v, e) := Mean(auto, w, items);
            && Resumes(w, v) && (v.db, e) == PlainMean(w.db, items)
            && (e.None? ==> Healthy(v))
    decreases items
  {
    if items != [] {
      PlainItemMeans(auto, w, items[0]);
      var (v, e) := MeanItem(auto, w, items[0]);
      if e.None? { PlainMeans(auto, v, items[1..]); }
    }
  }

  /** The same of the connection: the data and the exception are those of the plain meaning, and every savepoint is gone. */
  lemma PlainRuns(c: Conn, items: seq<Item>)
    requires Plain(items) && !c.server.aborted && (!c.server.inTx ==> c.numTransactions == 0 && c.server.stack == [])
    ensures var (d, e) := Run(c, items);
            && (d.server.db, e) == PlainMean(c.server.db, items)
            && d.numTransactions == c.numTransactions && d.server.stack == c.server.stack && Follows(c, d)
  {
    var w := World(c.server.db, c.server.inTx, false, c.numTransactions, []);
    assert c.server.stack + [] == c.server.stack;
    RunMeans(c, c.server.stack, w, items);
    PlainMeans(c.autocommit, w, items);
  }

  // ---------- programs that swallow errors inside a block ----------

  /**
   Exactly when a block left without an exception keeps its body: when the transaction is not aborted.
   If it is, the outermost block says nothing and keeps nothing; an inner one raises. If an entry failed
   inside, leaving the block is reported as out of order, and nothing is sent.
   */
  lemma NormalExitKeepsIff(c: Conn, id: nat, name: string, body: seq<Item>)
    requires !c.server.aborted && (!c.server.inTx ==> c.numTransactions == 0 && c.server.stack == [])
    requires var c1 := Enter(c, NewTxn(id, name, false)).0;
             Run(c1, body).1.None?
    ensures var (c1, t, _) := Enter(c, NewTxn(id, name, false));
            var c2 := Run(c1, body).0;
            var (c3, _, e) := Exit(c2, t, None);
            if c2.numTransactions != c1.numTransactions then e == Some(OutOfOrder) && c3.server == c2.server
            else if c.server.inTx then c3.server.db == c2.server.db && e == if c2.server.aborted then Some(SqlError) else None
            else e.None? && c3.server.db == if c2.server.aborted then c.server.db else c2.server.db
  {
    var below := c.server.stack;
    var w := World(c.server.db, c.server.inTx, false, c.numTransactions, []);
    assert below + [] == below;
    if c.server.inTx {
      EnterInner(c, id, name, false);
      var (c1, t, _) := Enter(c, NewTxn(id, name, false));
      var deeper := below + [Savepoint(t.name, w.db)];
      var inside := w.(count := w.count + 1);
      assert deeper + [] == deeper && below + w.left + [Savepoint(t.name, w.db)] == deeper;
      RunMeans(c1, deeper, inside, body);
      ExitInner(below, w, id, name, t.name, false, Run(c1, body).0, Mean(c.autocommit, inside, body).0, None);
    } else {
      EnterOuter(c, id, name, false);
      var c1 := Enter(c, NewTxn(id, name, false)).0;
      var inside := World(w.db, true, false, 1, c1.server.stack);
      assert [] + c1.server.stack == c1.server.stack;
      RunMeans(c1, [], inside, body);
      ExitOuter(w, id, name, false, Run(c1, body).0, Mean(c.autocommit, inside, body).0, None);
    }
  }

  /** A statement error swallowed in the outermost block loses all its work, without an exception. */
  lemma SwallowedErrorLosesWork(c: Conn, op: int)
    requires !c.server.inTx && !c.server.aborted && c.numTransactions == 0 && c.server.stack == []
    ensures var (d, e) := Run(c, [Block(0, "", false, [Do(op), Try([Fail])])]);
            e.None? && d.server.db == c.server.db
  {
    var body := [Do(op), Try([Fail])];
    var w := World(c.server.db, false, false, 0, []);
    assert [] + w.left == c.server.stack;
    RunMeans(c, [], w, [Block(0, "", false, body)]);
    var inside := World(w.db, true, false, 1, []);
    var v := World(w.db + [op], true, true, 1, []);
    OneItem(c.autocommit, inside.(db := w.db + [op]), Fail);
    OneItem(c.autocommit, inside.(db := w.db + [op]), Try([Fail]));
    assert body[1..] == [Try([Fail])];
    assert Mean(c.autocommit, inside, body) == (v, None);
    OneItem(c.autocommit, w, Block(0, "", false, body));
  }

  lemma OneItem(auto: bool, w: World, item: Item)
    ensures Mean(auto, w, [item]) == MeanItem(auto, w, item)
  {
    assert [item][1..] == [];
    var v := MeanItem(auto, w, item).0;
    assert Mean(auto, v, []) == (v, None);
  }

  /** Where a block that rolls back goes: to its beginning, unless a savepoint of its name was left behind inside of it. */
  lemma RollsBackTo(w: World, t: Txn, own: Savepoint, v: World, e: Option<Exc>)
    requires v.count == w.count + 1 && (e.Some? || t.force) && own.db == w.db
    ensures var (u, x) := LeaveInner(w, t, own, v, e);
            var last := FindLast(v.left, own.name);
            && u.db == (if last.Some? then v.left[last.value].db else w.db)
            && (u.db == w.db <==> last.None? || v.left[last.value].db == w.db)
            && !u.aborted && u.count == w.count && x == (if Swallows(t, e) then None else e)
  {
    var s := [own] + v.left;
    assert s[0] == own;
    if FindLast(v.left, own.name).Some? {
      FindAbove([own], v.left, own.name);
    } else {
      assert forall i :: 0 < i < |s| ==> s[i] == v.left[i - 1];
    }
  }

  /** With repeated names a block can roll back less than its body: the inner block leaves its savepoint behind. */
  lemma RepeatedNameRollsBackLess(c: Conn, op: int)
    requires c.server.inTx && !c.server.aborted
    ensures var (d, e) := Run(c, [Try([Block(0, "x", false, [Do(op), Block(1, "x", false, [Try([Fail])])])])]);
            e.None? && !d.server.aborted && d.server.db == c.server.db + [op]
  {
    var inner := Block(1, "x", false, [Try([Fail])]);
    var outer := Block(0, "x", false, [Do(op), inner]);
    var auto, below, w := c.autocommit, c.server.stack, World(c.server.db, true, false, c.numTransactions, []);
    assert below + [] == below;
    RunMeans(c, below, w, [Try([outer])]);
    var w1 := w.(count := w.count + 1);
    var w2 := w1.(db := w.db + [op]);
    var w3 := w2.(count := w.count + 2);
    OneItem(auto, w3, Fail);
    OneItem(auto, w3, Try([Fail]));
    var kept := Savepoint("x", w2.db);
    assert [kept] + [] == [kept] && [] + [kept] == [kept];
    assert MeanItem(auto, w2, inner) == (w2.(aborted := true, left := [kept]), Some(SqlError));
    OneItem(auto, w2, inner);
    var body := [Do(op), inner];
    assert body[1..] == [inner];
    assert Mean(auto, w1, body) == (w2.(aborted := true, left := [kept]), Some(SqlError));
    var own := Savepoint("x", w.db);
    assert FindLast([own] + [kept], "x") == Some(1);
    OneItem(auto, w, outer);
    OneItem(auto, w, Try([outer]));
  }

  // ---------- when names cannot clash ----------

  predicate Uses(item: Item, name: string)
    decreases item
  {
    match item
    case Block(_, n, _, body) => n == name || AnyUses(body, name)
    case Try(body) => AnyUses(body, name)
    case _ => false
  }

  predicate AnyUses(items: seq<Item>, name: string)
    decreases items
  {
    items != [] && (Uses(items[0], name) || AnyUses(items[1..], name))
  }

  ghost predicate Without(s: seq<Savepoint>, name: string) { forall i :: 0 <= i < |s| ==> s[i].name != name }

  /** No block from this count on gets the name by default. */
  ghost predicate NotDefault(name: string, count: int) { forall k: int :: k >= count ==> DefaultName(k) != name }

  lemma LeaveInnerWithout(w: World, t: Txn, own: Savepoint, v: World, e: Option<Exc>, name: string)
    requires Without(w.left, name) && Without(v.left, name) && own.name != name && v.count >= w.count + 1
    ensures var u := LeaveInner(w, t, own, v, e).0; Without(u.left, name) && u.count >= w.count
  {
    var s := [own] + v.left;
    assert s[0] == own && forall i :: 0 < i < |s| ==> s[i] == v.left[i - 1];
    var left := LeaveInner(w, t, own, v, e).0.left;
    assert left == w.left + s || left == w.left + s[..FindLast(s, own.name).value];
  }

  lemma {:induction false} ItemLeavesWithout(auto: bool, w: World, item: Item, name: string)
    requires !Uses(item, name) && name != "" && NotDefault(name, w.count) && Without(w.left, name)
    ensures var v := MeanItem(auto, w, item).0; Without(v.left, name) && v.count >= w.count
    decreases item, 0
  {
    match item
    case Try(body) => LeavesWithout(auto, w, body, name);
    case Block(id, n, force, body) =>
      if !w.tx {
        if w.count == 0 {
          LeavesWithout(auto, World(w.db, true, false, 1, if n == "" then [] else [Savepoint(n, w.db)]), body, name);
        }
      } else if !w.aborted {
        var inside := w.(count := w.count + 1, left := []);
        LeavesWithout(auto, inside, body, name);
        var (v, e) := Mean(auto, inside, body);
        LeaveInnerWithout(w, NewTxn(id, n, force), Savepoint(NameFor(w, n), w.db), v, e, name);
      }
    case _ =>
  }

  /** A name that no block of a program has is the name of no savepoint it leaves behind. */
  lemma {:induction false} LeavesWithout(auto: bool, w: World, items: seq<Item>, name: string)
    requires !AnyUses(items, name) && name != "" && NotDefault(name, w.count) && Without(w.left, name)
    ensures var v := Mean(auto, w, items).0; Without(v.left, name) && v.count >= w.count
    decreases items
  {
    if items != [] {
      ItemLeavesWithout(auto, w, items[0], name);
      var (v, e) := MeanItem(auto, w, items[0]);
      if e.None? { LeavesWithout(auto, v, items[1..], name); }
    }
  }

  /** The default name of a block: a prefix and the number of blocks, itself counted. */
  lemma DefaultNameReads(n: nat)
    ensures var x := DefaultName(n); |x| > 5 && x[..5] == "_pg3_" && IsNumeral(x[5..], n + 1)
  {
    DecimalReads(n + 1);
    assert DefaultName(n) == "_pg3_" + Decimal(n + 1);
  }

  /** The name of a block is no default name of a deeper one. */
  lemma DeeperNamesDiffer(w: World, name: string, k: int)
    requires 0 <= w.count < k && !("_pg3_" <= name)
    ensures DefaultName(k) != NameFor(w, name)
  {
    DefaultNameReads(k);
    if name == "" { DefaultNameReads(w.count); }
  }

  /**
   A block inside a transaction that rolls back contributes nothing, whatever errors its body swallowed,
   if no block inside of it has its name and it does not itself take the form of a default name.
   */
  lemma DistinctNamesRollBackAll(auto: bool, w: World, id: nat, name: string, force: bool, body: seq<Item>)
    requires w.tx && !w.aborted && 0 <= w.count && !AnyUses(body, NameFor(w, name)) && !("_pg3_" <= name)
    requires var (v, e) := Mean(auto, w.(count := w.count + 1, left := []), body);
             v.count == w.count + 1 && (e.Some? || force)
    ensures var u := MeanItem(auto, w, Block(id, name, force, body)).0;
            u.db == w.db && u.left == w.left && u.count == w.count && !u.aborted
  {
    var x := NameFor(w, name);
    var inside := w.(count := w.count + 1, left := []);
    forall k: int | k >= w.count + 1 ensures DefaultName(k) != x {
      DeeperNamesDiffer(w, name, k);
    }
    LeavesWithout(auto, inside, body, x);
    var (v, e) := Mean(auto, inside, body);
    var own := Savepoint(x, w.db);
    RollsBackTo(w, NewTxn(id, name, force), own, v, e);
    var s := [own] + v.left;
    assert s[0] == own;
    assert forall i :: 0 < i < |s| ==> s[i] == v.left[i - 1];
    assert FindLast(s, x) == Some(0) && w.left + s[..0] == w.left;
  }

  // ---------- blocks left in any order ----------

  datatype NestEvent =
    | Work(server: Server)                              // statements between entries and exits
    | EnterBlock(id: nat, name: string, force: bool)
    | LeaveBlock(id: nat, exc: Option<Exc>)

  /** When a block was entered: how many blocks were open or had failed to open, and how many had failed. */
  datatype Mark = Mark(depth: nat, failed: nat)

  /** `open` lists the blocks entered and not left, in that order; `failed` counts the entries that raised. */
  datatype Nest = Nest(conn: Conn, txns: map<nat, Txn>, marks: map<nat, Mark>, open: seq<nat>, failed: nat)

  function Remove(s: seq<nat>, x: nat): seq<nat> {
    if s == [] then [] else if s[0] == x then s[1..] else [s[0]] + Remove(s[1..], x)
  }

  /** Every block is a new one; any open block can be left. */
  ghost predicate NestEnabled(n: Nest, e: NestEvent) {
    match e
    case Work(_) => true
    case EnterBlock(id, _, _) => id !in n.txns
    case LeaveBlock(id, _) => id in n.open && id in n.txns
  }

  ghost function NestStep(n: Nest, e: NestEvent): Nest
    requires NestEnabled(n, e)
  {
    match e
    case Work(s) => n.(conn := n.conn.(server := s))
    case EnterBlock(id, name, force) =>
      var (c, t, x) := Enter(n.conn, NewTxn(id, name, force));
      if x == Some(AssertionFails) then n
      else if x.Some? then n.(conn := c, failed := n.failed + 1)
      else Nest(c, n.txns[id := t], n.marks[id := Mark(|n.open| + n.failed, n.failed)], n.open + [id], n.failed)
    case LeaveBlock(id, exc) =>
      var (c, t, _) := Exit(n.conn, n.txns[id], exc);
      n.(conn := c, txns := n.txns[id := t], open := Remove(n.open, id))
  }

  ghost predicate NestRun(n: Nest, es: seq<NestEvent>)
    decreases |es|
  {
    es != [] ==> NestEnabled(n, es[0]) && NestRun(NestStep(n, es[0]), es[1..])
  }

  ghost function NestFinal(n: Nest, es: seq<NestEvent>): Nest
    requires NestRun(n, es)
    decreases |es|
  {
    if es == [] then n else NestFinal(NestStep(n, es[0]), es[1..])
  }

  /** The counter counts the open blocks and the failed entries; each open block remembers the count it found. */
  ghost predicate Nested(n: Nest) {
    && n.conn.numTransactions == |n.open| + n.failed
    && (forall id :: id in n.open ==> id in n.txns && id in n.marks && n.txns[id].stackIndex == n.marks[id].depth)
  }

  lemma {:induction false} RemoveOne(s: seq<nat>, x: nat)
    ensures x in s ==> |Remove(s, x)| == |s| - 1
    ensures forall y :: y in Remove(s, x) ==> y in s
  {
    if s != [] && s[0] != x { RemoveOne(s[1..], x); }
  }

  lemma NestedStep(n: Nest, e: NestEvent)
    requires Nested(n) && NestEnabled(n, e)
    ensures Nested(NestStep(n, e))
  {
    if e.LeaveBlock? { RemoveOne(n.open, e.id); }
    if e.EnterBlock? {
      var (c, t, x) := Enter(n.conn, NewTxn(e.id, e.name, e.force));
      assert x == Some(AssertionFails) || c.numTransactions == n.conn.numTransactions + 1;
      assert x.None? ==> t.stackIndex == n.conn.numTransactions;
    }
  }

  lemma {:induction false} NestedRun(n: Nest, es: seq<NestEvent>)
    requires Nested(n) && NestRun(n, es)
    ensures Nested(NestFinal(n, es))
    decreases |es|
  {
    if es != [] {
      NestedStep(n, es[0]);
      NestedRun(NestStep(n, es[0]), es[1..]);
    }
  }

  function NewNest(c: Conn): Nest { Nest(c, map[], map[], [], 0) }

  /**
   After any run, with exits in any order and entries that fail: leaving a block is reported as out of
   order exactly when the other open blocks and the failed entries are not as many as when it was entered.
   */
  lemma ExitReportedIff(c: Conn, es: seq<NestEvent>, id: nat, exc: Option<Exc>)
    requires c.numTransactions == 0 && NestRun(NewNest(c), es)
    requires id in NestFinal(NewNest(c), es).open && exc != Some(OutOfOrder)
    ensures var f := NestFinal(NewNest(c), es);
            && id in f.txns && id in f.marks
            && (Exit(f.conn, f.txns[id], exc).2 == Some(OutOfOrder) <==> |f.open| - 1 + f.failed != f.marks[id].depth)
  {
    NestedRun(NewNest(c), es);
  }

  /** Only the innermost block is ever left. */
  ghost predicate LifoRun(n: Nest, es: seq<NestEvent>)
    requires NestRun(n, es)
    decreases |es|
  {
    es != [] ==> (es[0].LeaveBlock? ==> es[0].id == n.open[|n.open| - 1]) && LifoRun(NestStep(n, es[0]), es[1..])
  }

  /** The i-th open block was entered with i blocks open, and later ones after no fewer failed entries. */
  ghost predicate Rising(open: seq<nat>, marks: map<nat, Mark>, failed: nat) {
    && (forall i :: 0 <= i < |open| ==> open[i] in marks)
    && (forall i :: 0 <= i < |open| ==> marks[open[i]].depth == i + marks[open[i]].failed && marks[open[i]].failed <= failed)
    && (forall i, j :: 0 <= i < j < |open| ==> open[i] != open[j] && marks[open[i]].failed <= marks[open[j]].failed)
  }

  ghost predicate Stacked(n: Nest) {
    Nested(n) && Rising(n.open, n.marks, n.failed)
  }

  lemma {:induction false} RemoveLast(s: seq<nat>)
    requires s != [] && forall i, j :: 0 <= i < j < |s| ==> s[i] != s[j]
    ensures Remove(s, s[|s| - 1]) == s[..|s| - 1]
  {
    if |s| > 1 {
      RemoveLast(s[1..]);
      assert [s[0]] + s[1..][..|s| - 2] == s[..|s| - 1];
    }
  }

  lemma RisingSnoc(open: seq<nat>, marks: map<nat, Mark>, failed: nat, id: nat)
    requires Rising(open, marks, failed) && id !in open
    ensures Rising(open + [id], marks[id := Mark(|open| + failed, failed)], failed)
  {
    assert forall i :: 0 <= i < |open| ==> open[i] in open;
  }

  lemma StackedEnter(n: Nest, e: NestEvent)
    requires Stacked(n) && NestEnabled(n, e) && e.EnterBlock?
    ensures Stacked(NestStep(n, e))
  {
    NestedStep(n, e);
    RisingSnoc(n.open, n.marks, n.failed, e.id);
  }

  lemma StackedLeave(n: Nest, e: NestEvent)
    requires Stacked(n) && NestEnabled(n, e) && e.LeaveBlock? && e.id == n.open[|n.open| - 1]
    ensures Stacked(NestStep(n, e))
  {
    NestedStep(n, e);
    RemoveLast(n.open);
  }

  lemma StackedStep(n: Nest, e: NestEvent)
    requires Stacked(n) && NestEnabled(n, e) && (e.LeaveBlock? ==> e.id == n.open[|n.open| - 1])
    ensures Stacked(NestStep(n, e))
  {
    match e
    case Work(_) =>
    case EnterBlock(_, _, _) => StackedEnter(n, e);
    case LeaveBlock(_, _) => StackedLeave(n, e);
  }

  lemma {:induction false} StackedRun(n: Nest, es: seq<NestEvent>)
    requires Stacked(n) && NestRun(n, es) && LifoRun(n, es)
    ensures Stacked(NestFinal(n, es))
    decreases |es|
  {
    if es != [] {
      StackedStep(n, es[0]);
      StackedRun(NestStep(n, es[0]), es[1..]);
    }
  }

  /**
   After any run in which only innermost blocks were left, leaving a block is reported exactly when it is
   not the innermost one, or an entry has failed since it was entered. So the first exit in the wrong
   order is always reported.
   */
  lemma FirstWrongExitReported(c: Conn, es: seq<NestEvent>, id: nat, exc: Option<Exc>)
    requires c.numTransactions == 0 && NestRun(NewNest(c), es) && LifoRun(NewNest(c), es)
    requires id in NestFinal(NewNest(c), es).open && exc != Some(OutOfOrder)
    ensures var f := NestFinal(NewNest(c), es);
            && id in f.txns && id in f.marks
            && (Exit(f.conn, f.txns[id], exc).2 == Some(OutOfOrder)
                <==> id != f.open[|f.open| - 1] || f.failed > f.marks[id].failed)
  {
    StackedRun(NewNest(c), es);
    ExitReportedIff(c, es, id, exc);
    var f := NestFinal(NewNest(c), es);
    var i :| 0 <= i < |f.open| && f.open[i] == id;
  }

  /** A wrong exit after another one can pass unnoticed: blocks 0, 1, 2 open, 0 then 1 are left. */
  lemma SecondWrongExitUnreported(s: Server)
    requires !s.inTx && !s.aborted && s.stack == []
    ensures var c0 := Conn(s, true, 0);
            var (c1, t0, _) := Enter(c0, NewTxn(0, "", false));
            var (c2, t1, _) := Enter(c1, NewTxn(1, "", false));
            var (c3, t2, _) := Enter(c2, NewTxn(2, "", false));
            var (c4, _, e0) := Exit(c3, t0, None);
            var (c5, _, e1) := Exit(c4, t1, None);
            e0 == Some(OutOfOrder) && e1 != Some(OutOfOrder)
  {
    var c0 := Conn(s, true, 0);
    EnterOuter(c0, 0, "", false);
    var c1 := Enter(c0, NewTxn(0, "", false)).0;
    EnterInner(c1, 1, "", false);
    var c2 := Enter(c1, NewTxn(1, "", false)).0;
    EnterInner(c2, 2, "", false);
  }

  /** A block entered while the server refuses commands raises, but stays counted: leaving the enclosing block is then reported. */
  lemma FailedEnterStaysCounted(c: Conn, outer: Txn, id: nat, exc: Option<Exc>)
    requires c.server.inTx && c.server.aborted && outer.stackIndex == c.numTransactions - 1
    ensures var (d, _, e) := Enter(c, NewTxn(id, "", false));
            && e == Some(SqlError) && d.numTransactions == c.numTransactions + 1
            && Exit(d, outer, exc).2 == Some(OutOfOrder)
  {
    EnterInner(c, id, "", false);
  }

  // ---------- the objects ----------

  class Connection {
    var server: Server
    const autocommit: bool
    var numTransactions: int

    function View(): Conn
      reads this
    {
      Conn(server, autocommit, numTransactions)
    }

    /** _exec_command, outside pipeline mode. */
    method ExecCommand(c: Command) returns (ok: bool)
      modifies this`server
      ensures (server, ok) == Execute(old(server), c)
    {
      var (s, b) := Execute(server, c);
      server := s;
      ok := b;
    }

    /** The commands of a generator are sent one by one; an error stops it. */
    method ExecCommands(cs: seq<Command>) returns (ok: bool)
      modifies this`server
      ensures (server, ok) == ExecuteAll(old(server), cs)
    {
      var i := 0;
      ok := true;
      while ok && i < |cs|
        invariant 0 <= i <= |cs|
        invariant if ok then ExecuteAll(server, cs[i..]) == ExecuteAll(old(server), cs)
                  else (server, false) == ExecuteAll(old(server), cs)
        decreases |cs| - i, ok
      {
        assert cs[i..][1..] == cs[i + 1..];
        ok := ExecCommand(cs[i]);
        i := i + 1;
      }
    }

    method Statement(op: Option<int>) returns (e: Option<Exc>)
      modifies this`server
      ensures (View(), e) == RunStatement(old(View()), op)
    {
      if !autocommit && !server.inTx {
        var _ := ExecCommand(Begin);
      }
      if server.aborted { return Some(SqlError); }
      if op.None? {
        server := Failed(server);
        return Some(SqlError);
      }
      server := server.(db := server.db + [op.value]);
      return None;
    }
  }

  class Transaction {
    const conn: Connection
    const id: nat
    const force: bool
    var savepointName: string
    var entered: bool
    var exited: bool
    var outer: bool
    var stackIndex: int

    function View(): Txn
      reads this
    {
      Txn(id, savepointName, force, entered, exited, outer, stackIndex)
    }

    constructor (conn: Connection, id: nat, name: string, force: bool)
      ensures this.conn == conn && View() == NewTxn(id, name, force)
    {
      this.conn, this.id, this.force, savepointName := conn, id, force, name;
      entered, exited, outer, stackIndex := false, false, false, -1;
    }

    /** _push_savepoint; false if its assertion fails. */
    method PushSavepoint() returns (ok: bool)
      requires entered
      modifies this, conn`numTransactions
      ensures ok <==> old(conn.server.inTx) || old(conn.numTransactions) == 0
      ensures ok ==> var (c, t) := Pushed(old(conn.View()), old(View())); conn.View() == c && View() == t
      ensures !ok ==> conn.View() == old(conn.View()) && View() == old(View()).(outer := true)
    {
      outer := !conn.server.inTx;
      if outer {
        if conn.numTransactions != 0 { return false; }
      } else if savepointName == "" {
        savepointName := DefaultName(conn.numTransactions);
      }
      stackIndex := conn.numTransactions;
      conn.numTransactions := conn.numTransactions + 1;
      ok := true;
    }

    method EnterGen() returns (e: Option<Exc>)
      modifies this, conn
      ensures var (c, t, x) := Enter(old(conn.View()), old(View())); conn.View() == c && View() == t && e == x
    {
      if entered { return Some(UsedTwice); }
      entered := true;
      var ok := PushSavepoint();
      if !ok { return Some(AssertionFails); }
      ok := conn.ExecCommands(EnterCommands(View()));
      e := if ok then None else Some(SqlError);
    }

    /** _pop_savepoint: true if the block is left in the right order. */
    method PopSavepoint() returns (inOrder: bool)
      modifies conn`numTransactions
      ensures conn.numTransactions == old(conn.numTransactions) - 1
      ensures inOrder <==> conn.numTransactions == stackIndex
    {
      conn.numTransactions := conn.numTransactions - 1;
      inOrder := conn.numTransactions == stackIndex;
    }

    method ExitGen(exc: Option<Exc>) returns (e: Option<Exc>)
      modifies this`exited, conn
      ensures var (c, t, x) := Exit(old(conn.View()), old(View()), exc); conn.View() == c && View() == t && e == x
    {
      var inOrder := PopSavepoint();
      exited := true;
      if !inOrder { return Some(OutOfOrder); }
      if exc.None? && !force {
        var ok := conn.ExecCommands(CommitCommands(View()));
        e := if ok then None else Some(SqlError);
      } else {
        var ok := conn.ExecCommands(RollbackCommands(View()));
        e := if ok && Swallows(View(), exc) then None else exc;
      }
    }
  }

  method RunBlockItem(conn: Connection, item: Item) returns (e: Option<Exc>)
    modifies conn
    ensures (conn.View(), e) == RunItem(old(conn.View()), item)
    decreases item, 0
  {
    match item
    case Do(op) => e := conn.Statement(Some(op));
    case Fail => e := conn.Statement(None);
    case Raise(x) => e := Some(x);
    case Try(body) =>
      var _ := RunBlocks(conn, body);
      e := None;
    case Block(id, name, force, body) =>
      var t := new Transaction(conn, id, name, force);
      e := t.EnterGen();
      if e.None? {
        e := RunBlocks(conn, body);
        e := t.ExitGen(e);
      }
  }

  /** A program of with blocks, run with the objects; what it means is said by RunMeans. */
  method RunBlocks(conn: Connection, items: seq<Item>) returns (e: Option<Exc>)
    modifies conn
    ensures (conn.View(), e) == Run(old(conn.View()), items)
    ensures forall w: World, below: seq<Savepoint> :: old(Shows(conn.View(), below, w)) ==>
              Shows(conn.View(), below, Mean(conn.autocommit, w, items).0) && e == Mean(conn.autocommit, w, items).1
    decreases items
  {
    ghost var c := conn.View();
    forall w: World, below: seq<Savepoint> | Shows(c, below, w)
      ensures var (d, x) := Run(c, items);
              Shows(d, below, Mean(c.autocommit, w, items).0) && x == Mean(c.autocommit, w, items).1
    {
      RunMeans(c, below, w, items);
    }
    if items == [] { return None; }
    e := RunBlockItem(conn, items[0]);
    if e.None? {
      e := RunBlocks(conn, items[1..]);
    }
  }
}
