/** In which order the bytes of the calls of a copy leave, whatever the calls and the buffering. */
module CopyOrder {
  import opened Util
  import opened Wire
  import opened CopyFormat
  import opened CopyStream

  /** What becomes of the bytes of a call; a flush takes all that waits, and the call's own bytes if it has any. */
  datatype Fate = Nothing | Waits | Flushes(own: bool) | Goes

  /** Calls by index: those whose bytes have gone, and those whose bytes wait in the buffer. */
  datatype Order = Order(gone: seq<nat>, waiting: seq<nat>)

  function All(o: Order): seq<nat> { o.gone + o.waiting }

  function Placed(o: Order, fate: Fate, i: nat): Order {
    match fate
    case Nothing => o
    case Waits => o.(waiting := o.waiting + [i])
    case Flushes(own) => Order(All(o) + if own then [i] else [], [])
    case Goes => o.(gone := o.gone + [i])
  }

  function PlacedAll(o: Order, fates: seq<Fate>, i: nat): Order
    decreases |fates|
  {
    if fates == [] then o else PlacedAll(Placed(o, fates[0], i), fates[1..], i + 1)
  }

  // ---------- the fates of the calls ----------

  /** The bytes of the i-th call, the signature among those of the first one. */
  function Piece(binary: bool, ops: seq<Op>, i: nat): Bytes
    requires i < |ops|
  {
    (if i == 0 then Opening(binary, ops) else []) + OpBytes(binary, ops[i])
  }

  function FateOf(f: Format, ops: seq<Op>, i: nat): Fate
    requires i < |ops|
  {
    var piece := Piece(f.binary, ops, i);
    if ops[i].Row? && |f.buffer| + |piece| > BUFFER_SIZE then Flushes(piece != [])
    else if piece == [] then Nothing
    else if ops[i].Row? then Waits
    else Goes
  }

  function Fates(f: Format, ops: seq<Op>, i: nat): seq<Fate>
    requires i <= |ops|
    decreases |ops| - i
  {
    if i == |ops| then [] else [FateOf(f, ops, i)] + Fates(WriteOp(f, ops[i]), ops, i + 1)
  }

  /** The calls in the order their bytes leave; what waits at the end goes last. */
  function Leaving(binary: bool, ops: seq<Op>): seq<nat> {
    All(PlacedAll(Order([], []), Fates(Fresh(binary), ops, 0), 0))
  }

  // ---------- what leaves ----------

  predicate Below(s: seq<nat>, n: nat) { forall k :: 0 <= k < |s| ==> s[k] < n }

  /** The pieces of the calls of a list, one after the other. */
  function Pieces(binary: bool, ops: seq<Op>, s: seq<nat>): Bytes
    requires Below(s, |ops|)
  {
    if s == [] then [] else Piece(binary, ops, s[0]) + Pieces(binary, ops, s[1..])
  }

  /** The formatter after i calls, and the order that accounts for its bytes. */
  ghost predicate Accounts(binary: bool, ops: seq<Op>, i: nat, f: Format, o: Order) {
    && i <= |ops| && f.binary == binary && (f.signatureSent <==> i > 0)
    && Below(o.gone, i) && Below(o.waiting, i)
    && f.out == Pieces(binary, ops, o.gone) && f.buffer == Pieces(binary, ops, o.waiting)
    && (o.waiting == [] <==> f.buffer == [])
  }

  lemma {:induction false} PiecesAppend(binary: bool, ops: seq<Op>, s: seq<nat>, t: seq<nat>)
    requires Below(s, |ops|) && Below(t, |ops|)
    ensures Pieces(binary, ops, s + t) == Pieces(binary, ops, s) + Pieces(binary, ops, t)
  {
    if s == [] {
      assert s + t == t;
    } else {
      assert (s + t)[1..] == s[1..] + t;
      PiecesAppend(binary, ops, s[1..], t);
    }
  }

  lemma PiecesSnoc(binary: bool, ops: seq<Op>, s: seq<nat>, i: nat)
    requires i < |ops| && Below(s, |ops|)
    ensures Pieces(binary, ops, s + [i]) == Pieces(binary, ops, s) + Piece(binary, ops, i)
  {
    PiecesAppend(binary, ops, s, [i]);
    assert [i][1..] == [];
    assert Piece(binary, ops, i) + Pieces(binary, ops, []) == Piece(binary, ops, i);
  }

  lemma BlockAccounts(binary: bool, ops: seq<Op>, i: nat, f: Format, o: Order)
    requires Accounts(binary, ops, i, f, o) && i < |ops| && ops[i].Block?
    ensures Accounts(binary, ops, i + 1, WriteOp(f, ops[i]), Placed(o, FateOf(f, ops, i), i))
  {
    assert Piece(binary, ops, i) == ops[i].data;
    var g := WriteOp(f, ops[i]);
    if ops[i].data == [] {
      assert g.out == f.out && FateOf(f, ops, i) == Nothing;
    } else {
      PiecesSnoc(binary, ops, o.gone, i);
      assert g.out == f.out + Piece(binary, ops, i) && FateOf(f, ops, i) == Goes;
    }
  }

  /** The buffer after a row, before its length is looked at. */
  function Filled(f: Format, op: Op): Bytes
    requires op.Row?
  {
    f.buffer + Signed(f) + RowBytes(f.binary, op.row)
  }

  lemma FilledIs(binary: bool, ops: seq<Op>, i: nat, f: Format, o: Order)
    requires Accounts(binary, ops, i, f, o) && i < |ops| && ops[i].Row?
    ensures Filled(f, ops[i]) == f.buffer + Piece(binary, ops, i)
    ensures Piece(binary, ops, i) == [] ==> Filled(f, ops[i]) == f.buffer
    ensures Piece(binary, ops, i) != [] ==> Filled(f, ops[i]) == Pieces(binary, ops, o.waiting + [i])
  {
    PiecesSnoc(binary, ops, o.waiting, i);
    Regroup(f.buffer, Signed(f), RowBytes(f.binary, ops[i].row), []);
    assert Signed(f) == if i == 0 then Opening(binary, ops) else [];
    assert f.buffer + [] == f.buffer;
  }

  lemma RowWaits(binary: bool, ops: seq<Op>, i: nat, f: Format, o: Order)
    requires Accounts(binary, ops, i, f, o) && i < |ops| && ops[i].Row? && |Filled(f, ops[i])| <= BUFFER_SIZE
    ensures Accounts(binary, ops, i + 1, WriteOp(f, ops[i]), Placed(o, FateOf(f, ops, i), i))
  {
    FilledIs(binary, ops, i, f, o);
    assert WriteOp(f, ops[i]).buffer == Filled(f, ops[i]) && WriteOp(f, ops[i]).out == f.out;
  }

  lemma PiecesFlush(binary: bool, ops: seq<Op>, i: nat, f: Format, o: Order)
    requires Accounts(binary, ops, i, f, o) && i < |ops| && ops[i].Row?
    ensures var own := if Piece(binary, ops, i) == [] then [] else [i];
            Below(o.gone + o.waiting + own, i + 1) && f.out + Filled(f, ops[i]) == Pieces(binary, ops, o.gone + o.waiting + own)
  {
    FilledIs(binary, ops, i, f, o);
    if Piece(binary, ops, i) == [] {
      PiecesAppend(binary, ops, o.gone, o.waiting);
      assert o.gone + o.waiting + [] == o.gone + o.waiting;
    } else {
      PiecesAppend(binary, ops, o.gone, o.waiting + [i]);
      Regroup(o.gone, o.waiting, [i], []);
    }
  }

  lemma RowFlushes(binary: bool, ops: seq<Op>, i: nat, f: Format, o: Order)
    requires Accounts(binary, ops, i, f, o) && i < |ops| && ops[i].Row? && |Filled(f, ops[i])| > BUFFER_SIZE
    ensures Accounts(binary, ops, i + 1, WriteOp(f, ops[i]), Placed(o, FateOf(f, ops, i), i))
  {
    var own := Piece(binary, ops, i) != [];
    FilledIs(binary, ops, i, f, o);
    PiecesFlush(binary, ops, i, f, o);
    assert FateOf(f, ops, i) == Flushes(own);
    assert Placed(o, Flushes(own), i) == Order(o.gone + o.waiting + if own then [i] else [], []);
    assert WriteOp(f, ops[i]).out == f.out + Filled(f, ops[i]) && WriteOp(f, ops[i]).buffer == [];
  }

  lemma RowAccounts(binary: bool, ops: seq<Op>, i: nat, f: Format, o: Order)
    requires Accounts(binary, ops, i, f, o) && i < |ops| && ops[i].Row?
    ensures Accounts(binary, ops, i + 1, WriteOp(f, ops[i]), Placed(o, FateOf(f, ops, i), i))
  {
    if |Filled(f, ops[i])| > BUFFER_SIZE {
      RowFlushes(binary, ops, i, f, o);
    } else {
      RowWaits(binary, ops, i, f, o);
    }
  }

  lemma WriteAllFrom(f: Format, ops: seq<Op>, i: nat)
    requires i < |ops|
    ensures WriteAll(f, ops[i..]) == WriteAll(WriteOp(f, ops[i]), ops[i + 1..])
  {
    assert ops[i..][1..] == ops[i + 1..];
  }

  lemma FatesFirst(f: Format, ops: seq<Op>, i: nat)
    requires i < |ops|
    ensures Fates(f, ops, i) != [] && Fates(f, ops, i)[0] == FateOf(f, ops, i)
    ensures Fates(f, ops, i)[1..] == Fates(WriteOp(f, ops[i]), ops, i + 1)
  {
  }

  lemma {:induction false} CallsAccount(binary: bool, ops: seq<Op>, i: nat, f: Format, o: Order)
    requires Accounts(binary, ops, i, f, o)
    ensures Accounts(binary, ops, |ops|, WriteAll(f, ops[i..]), PlacedAll(o, Fates(f, ops, i), i))
    decreases |ops| - i
  {
    if i < |ops| {
      if ops[i].Block? { BlockAccounts(binary, ops, i, f, o); } else { RowAccounts(binary, ops, i, f, o); }
      WriteAllFrom(f, ops, i);
      FatesFirst(f, ops, i);
      CallsAccount(binary, ops, i + 1, WriteOp(f, ops[i]), Placed(o, FateOf(f, ops, i), i));
    }
  }

  lemma {:induction false} RowModeIs(f: Format, ops: seq<Op>)
    ensures WriteAll(f, ops).rowMode == (f.rowMode || HasRow(ops))
    decreases |ops|
  {
    if ops != [] { RowModeIs(WriteOp(f, ops[0]), ops[1..]); }
  }

  /** For any calls at all: what is put out are their bytes in the order they leave, and the trailer if it is due. */
  lemma OutputIsLeaving(binary: bool, ops: seq<Op>)
    requires ops != []
    ensures Below(Leaving(binary, ops), |ops|)
    ensures Output(binary, ops) == Pieces(binary, ops, Leaving(binary, ops)) + Closing(binary, ops)
  {
    var f, o := Fresh(binary), Order([], []);
    assert ops[0..] == ops;
    CallsAccount(binary, ops, 0, f, o);
    RowModeIs(f, ops);
    var g, p := WriteAll(f, ops), PlacedAll(o, Fates(f, ops, 0), 0);
    PiecesAppend(binary, ops, p.gone, p.waiting);
    assert EndBytes(g) == g.buffer + Closing(binary, ops);
    Regroup(g.out, g.buffer, Closing(binary, ops), []);
  }

  // ---------- each call once ----------

  /** Is a call with this fate in the order? */
  predicate Listed(fate: Fate) { fate.Waits? || fate.Goes? || (fate.Flushes? && fate.own) }

  lemma BelowParts(o: Order, i: nat)
    ensures Below(All(o), i) <==> Below(o.gone, i) && Below(o.waiting, i)
  {
    if Below(All(o), i) {
      assert forall k :: 0 <= k < |o.gone| ==> o.gone[k] == All(o)[k];
      assert forall k :: 0 <= k < |o.waiting| ==> o.waiting[k] == All(o)[|o.gone| + k];
    }
  }

  /** The same calls as before, and the new one if it is listed. */
  lemma PlacedSame(o: Order, fate: Fate, i: nat)
    ensures multiset(All(Placed(o, fate, i))) == multiset(All(o)) + if Listed(fate) then multiset{i} else multiset{}
  {
    match fate
    case Nothing =>
    case Waits => Regroup(o.gone, o.waiting, [i], []);
    case Flushes(own) =>
      assert All(Placed(o, fate, i)) == All(o) + if own then [i] else [];
    case Goes =>
      assert All(Placed(o, fate, i)) == o.gone + [i] + o.waiting;
  }

  lemma PlacedOne(o: Order, fate: Fate, i: nat)
    requires Below(All(o), i)
    ensures Below(All(Placed(o, fate, i)), i + 1)
  {
    BelowParts(o, i);
    BelowParts(Placed(o, fate, i), i + 1);
  }

  lemma NotBelow(s: seq<nat>, i: nat, k: nat)
    requires Below(s, i) && i <= k
    ensures multiset(s)[k] == 0
  {
    assert forall j :: 0 <= j < |s| ==> s[j] != k;
    assert k !in s;
  }

  lemma ListedIff(f: Format, ops: seq<Op>, i: nat)
    requires i < |ops|
    ensures Listed(FateOf(f, ops, i)) <==> Piece(f.binary, ops, i) != []
  {
  }

  /** How often a call is among those placed, when the calls from i on are still to come. */
  function Times(binary: bool, ops: seq<Op>, i: nat, k: nat, before: nat): nat {
    if i <= k < |ops| then (if Piece(binary, ops, k) == [] then 0 else 1) else before
  }

  lemma StepCount(f: Format, o: Order, ops: seq<Op>, i: nat, k: nat)
    requires i < |ops| && Below(All(o), i)
    ensures var p := All(Placed(o, FateOf(f, ops, i), i));
            Below(p, i + 1) && multiset(p)[k] == if k == i then Times(f.binary, ops, i, i, 0) else multiset(All(o))[k]
  {
    ListedIff(f, ops, i);
    PlacedSame(o, FateOf(f, ops, i), i);
    PlacedOne(o, FateOf(f, ops, i), i);
    NotBelow(All(o), i, i);
  }

  lemma {:induction false} CallsCount(f: Format, o: Order, ops: seq<Op>, i: nat, k: nat)
    requires i <= |ops| && Below(All(o), i)
    ensures multiset(All(PlacedAll(o, Fates(f, ops, i), i)))[k] == Times(f.binary, ops, i, k, multiset(All(o))[k])
    decreases |ops| - i
  {
    if i < |ops| {
      var g, p := WriteOp(f, ops[i]), Placed(o, FateOf(f, ops, i), i);
      StepCount(f, o, ops, i, k);
      BinaryKept(f, ops[i]);
      CallsCount(g, p, ops, i + 1, k);
      FatesFirst(f, ops, i);
      assert PlacedAll(o, Fates(f, ops, i), i) == PlacedAll(p, Fates(g, ops, i + 1), i + 1);
    }
  }

  lemma BinaryKept(f: Format, op: Op)
    ensures WriteOp(f, op).binary == f.binary
  {
  }

  /** No call is lost and none is sent twice, even when a block overtakes; a call without bytes leaves nothing. */
  lemma EachLeavesOnce(binary: bool, ops: seq<Op>, k: nat)
    ensures multiset(Leaving(binary, ops))[k] == if k < |ops| && Piece(binary, ops, k) != [] then 1 else 0
  {
    var o := Order([], []);
    CallsCount(Fresh(binary), o, ops, 0, k);
    assert multiset(All(o))[k] == 0;
  }

  // ---------- when they leave in order ----------

  ghost predicate Rising(s: seq<nat>) { forall a, b :: 0 <= a < b < |s| ==> s[a] < s[b] }

  /** Nothing goes past a call that waits. */
  predicate InTurn(o: Order, fates: seq<Fate>, i: nat)
    decreases |fates|
  {
    fates != [] ==> (fates[0].Goes? ==> o.waiting == []) && InTurn(Placed(o, fates[0], i), fates[1..], i + 1)
  }

  /** A call that has gone keeps its position. */
  lemma {:induction false} GoneStays(o: Order, fates: seq<Fate>, i: nat, k: nat)
    requires k < |o.gone|
    ensures var r := All(PlacedAll(o, fates, i)); k < |r| && r[k] == o.gone[k]
    decreases |fates|
  {
    if fates != [] { GoneStays(Placed(o, fates[0], i), fates[1..], i + 1, k); }
  }

  /** A call that waits comes somewhere after those that have gone. */
  lemma {:induction false} WaitingLeaves(o: Order, fates: seq<Fate>, i: nat, k: nat) returns (at: nat)
    requires k < |o.waiting|
    ensures var r := All(PlacedAll(o, fates, i)); |o.gone| <= at < |r| && r[at] == o.waiting[k]
    decreases |fates|
  {
    if fates == [] {
      at := |o.gone| + k;
    } else if fates[0].Flushes? {
      at := |o.gone| + k;
      GoneStays(Placed(o, fates[0], i), fates[1..], i + 1, at);
    } else {
      at := WaitingLeaves(Placed(o, fates[0], i), fates[1..], i + 1, k);
    }
  }

  lemma OvertakenNotRising(o: Order, fates: seq<Fate>, i: nat)
    requires fates != [] && fates[0].Goes? && o.waiting != [] && o.waiting[0] < i
    ensures !Rising(All(PlacedAll(o, fates, i)))
  {
    var p := Placed(o, Goes, i);
    GoneStays(p, fates[1..], i + 1, |o.gone|);
    var at := WaitingLeaves(p, fates[1..], i + 1, 0);
  }

  lemma PlacedRises(o: Order, fate: Fate, i: nat)
    requires Below(All(o), i) && Rising(All(o)) && (fate.Goes? ==> o.waiting == [])
    ensures Rising(All(Placed(o, fate, i))) && Below(All(Placed(o, fate, i)), i + 1)
  {
    var t := All(Placed(o, fate, i));
    assert t == All(o) || t == All(o) + [i];
  }

  lemma {:induction false} RisingIffInTurn(o: Order, fates: seq<Fate>, i: nat)
    requires Below(All(o), i) && Rising(All(o))
    ensures Rising(All(PlacedAll(o, fates, i))) <==> InTurn(o, fates, i)
    decreases |fates|
  {
    if fates != [] {
      if fates[0].Goes? && o.waiting != [] {
        assert o.waiting[0] == All(o)[|o.gone|];
        OvertakenNotRising(o, fates, i);
      } else {
        PlacedRises(o, fates[0], i);
        RisingIffInTurn(Placed(o, fates[0], i), fates[1..], i + 1);
      }
    }
  }

  lemma {:induction false} InTurnIs(binary: bool, f: Format, o: Order, ops: seq<Op>, i: nat)
    requires Accounts(binary, ops, i, f, o)
    ensures InTurn(o, Fates(f, ops, i), i) <==> NoneOvertaken(f, ops[i..])
    decreases |ops| - i
  {
    if i < |ops| {
      assert ops[i..][1..] == ops[i + 1..];
      FatesFirst(f, ops, i);
      GoesIff(f, ops, i);
      if ops[i].Block? { BlockAccounts(binary, ops, i, f, o); } else { RowAccounts(binary, ops, i, f, o); }
      InTurnIs(binary, WriteOp(f, ops[i]), Placed(o, FateOf(f, ops, i), i), ops, i + 1);
    }
  }

  lemma GoesIff(f: Format, ops: seq<Op>, i: nat)
    requires i < |ops|
    ensures FateOf(f, ops, i).Goes? <==> ops[i].Block? && ops[i].data != []
  {
    assert [] + OpBytes(f.binary, ops[i]) == OpBytes(f.binary, ops[i]);
  }

  /** The calls leave in the order they were made exactly when no block is written while a row waits. */
  lemma LeaveInOrderIff(binary: bool, ops: seq<Op>)
    ensures Rising(Leaving(binary, ops)) <==> NoneOvertaken(Fresh(binary), ops)
  {
    var f, o := Fresh(binary), Order([], []);
    assert ops[0..] == ops;
    RisingIffInTurn(o, Fates(f, ops, 0), 0);
    InTurnIs(binary, f, o, ops, 0);
  }
}
