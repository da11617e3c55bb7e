/**
 The imperative side of text arrays: the recursive appender of the dumper, and the loader, whose
 lists are Python objects held by reference: one list can be on the stack and inside another. Each
 is proved equal to the functions of module ArrayText.
 */
module ArrayObjects {
  import opened NestedLists
  import opened Util
  import opened ArrayText

  // ---------- the dumper ----------

  /** The token list that the nested dump_list appends to. */
  class ListDumper {
    const delimiter: Delimiter
    var tokens: seq<Bytes>

    constructor (delimiter: Delimiter)
      ensures this.delimiter == delimiter && tokens == []
    {
      this.delimiter := delimiter;
      tokens := [];
    }

    /** The text of a list is appended; each item is followed by a delimiter, the last one overwritten. */
    method DumpList(obj: Elem)
      requires obj.List?
      modifies this
      ensures tokens != [] && Concat(tokens) == Concat(old(tokens)) + Text(obj, delimiter)
      decreases obj, 0
    {
      ghost var before := tokens;
      var es := obj.es;
      if es == [] {
        ConcatSnoc(tokens, "{}");
        tokens := tokens + ["{}"];
        return;
      }
      ConcatSnoc(tokens, "{");
      tokens := tokens + ["{"];
      for i := 0 to |es|
        invariant tokens != []
        invariant Concat(tokens) == Concat(before) + Opened(es, i, delimiter)
        invariant 0 < i ==> tokens[|tokens| - 1] == [delimiter]
      {
        DumpItem(es[i]);
        OpenedMore(Concat(before), es, i, delimiter);
        ConcatSnoc(tokens, [delimiter]);
        tokens := tokens + [[delimiter]];
      }
      LastClosed(tokens, Concat(before), es, delimiter);
      tokens := tokens[|tokens| - 1 := "}"];
    }

    method DumpItem(item: Elem)
      modifies this
      ensures tokens != [] && Concat(tokens) == Concat(old(tokens)) + Text(item, delimiter)
      decreases item, 1
    {
      if item.List? {
        DumpList(item);
      } else {
        ConcatSnoc(tokens, Text(item, delimiter));
        if item.Null? {
          tokens := tokens + ["NULL"];
        } else if NeedsQuotes(item.b, delimiter) {
          tokens := tokens + ["\"" + Escaped(item.b) + "\""];
        } else {
          tokens := tokens + [item.b];
        }
      }
    }
  }

  /** The text of an open list: its first i items, each with a delimiter. */
  ghost function Opened(es: seq<Elem>, i: nat, c: Delimiter): Bytes
    requires i <= |es|
  {
    "{" + if i == 0 then [] else Joined(es[..i], c) + [c]
  }

  lemma Deepen(a: Bytes, b: Bytes, items: Bytes, item: Bytes, end: Bytes)
    ensures a + (b + items) + item + end == a + (b + (items + item + end))
  {
    Regroup(a, b + items, item, end);
    Regroup(b, items, item, end);
    Regroup(items, item, end, []);
  }

  lemma SnocInjective(a: Bytes, b: Bytes, c: char)
    requires a + [c] == b + [c]
    ensures a == b
  {
    assert (a + [c])[..|a|] == a && (b + [c])[..|b|] == b;
    assert |a + [c]| == |b + [c]|;
  }

  lemma OpenedMore(before: Bytes, es: seq<Elem>, i: nat, c: Delimiter)
    requires i < |es|
    ensures before + Opened(es, i, c) + Text(es[i], c) + [c] == before + Opened(es, i + 1, c)
  {
    JoinedSnoc(es, i, c);
    Deepen(before, "{", if i == 0 then [] else Joined(es[..i], c) + [c], Text(es[i], c), [c]);
  }

  /** The last delimiter overwritten by the closing brace. */
  lemma LastClosed(tokens: seq<Bytes>, before: Bytes, es: seq<Elem>, c: Delimiter)
    requires es != [] && tokens != [] && tokens[|tokens| - 1] == [c]
    requires Concat(tokens) == before + Opened(es, |es|, c)
    ensures Concat(tokens[|tokens| - 1 := "}"]) == before + Text(List(es), c)
  {
    var init, items := tokens[..|tokens| - 1], Joined(es, c);
    assert es[..|es|] == es;
    assert tokens == init + [[c]] && tokens[|tokens| - 1 := "}"] == init + ["}"];
    ConcatSnoc(init, [c]);
    ConcatSnoc(init, "}");
    Deepen(before, "{", items, [], [c]);
    assert items + [] == items && before + ("{" + items) + [] == before + ("{" + items);
    SnocInjective(Concat(init), before + ("{" + items), c);
    Regroup(before, "{" + items, "}", []);
  }

  lemma {:induction false} JoinedSnoc(es: seq<Elem>, i: nat, c: Delimiter)
    requires i < |es|
    ensures Joined(es[..i + 1], c) == (if i == 0 then [] else Joined(es[..i], c) + [c]) + Text(es[i], c)
    decreases i
  {
    if i > 0 {
      JoinedSnoc(es[1..], i - 1, c);
      assert es[..i + 1][1..] == es[1..][..i] && es[..i][1..] == es[1..][..i - 1];
      if i > 1 {
        Regroup(Text(es[0], c) + [c], Joined(es[1..][..i - 1], c), [c], Text(es[i], c));
      }
    }
  }

  /** dump: the tokens of the list, joined. */
  method Dump(es: seq<Elem>, c: Delimiter) returns (r: Bytes)
    ensures r == Text(List(es), c)
  {
    var d := new ListDumper(c);
    d.DumpList(List(es));
    r := Concat(d.tokens);
  }

  // ---------- lists by reference ----------

  /** What a list object holds: no value, a value, or another list by its address. */
  datatype Item = INull | ILeaf(b: Bytes) | IRef(addr: nat)

  /** The list objects made so far, by address. */
  type Store = seq<seq<Item>>

  /** The item stands for the value, and no list of `open` is part of it. */
  ghost predicate Shows(store: Store, open: set<nat>, x: Item, v: Elem)
    decreases v
  {
    match v
    case Null => x == INull
    case Leaf(b) => x == ILeaf(b)
    case List(es) => x.IRef? && x.addr < |store| && x.addr !in open && ShowsAll(store, open, store[x.addr], es)
  }

  ghost predicate ShowsAll(store: Store, open: set<nat>, xs: seq<Item>, vs: seq<Elem>)
    decreases vs
  {
    && |xs| == |vs|
    && (vs != [] ==> Shows(store, open, xs[0], vs[0]) && ShowsAll(store, open, xs[1..], vs[1..]))
  }

  /** Only lists of `open` and new ones have changed, and only new ones have been opened. */
  ghost predicate Frame(store: Store, open: set<nat>, store': Store, open': set<nat>) {
    && |store| <= |store'|
    && forall p :: 0 <= p < |store| && p !in open ==> store'[p] == store[p] && p !in open'
  }

  lemma {:induction false} ShowsFrame(store: Store, open: set<nat>, store': Store, open': set<nat>, x: Item, v: Elem)
    requires Frame(store, open, store', open') && Shows(store, open, x, v)
    ensures Shows(store', open', x, v)
    decreases v
  {
    if v.List? {
      ShowsAllFrame(store, open, store', open', store[x.addr], v.es);
    }
  }

  lemma {:induction false} ShowsAllFrame(store: Store, open: set<nat>, store': Store, open': set<nat>, xs: seq<Item>, vs: seq<Elem>)
    requires Frame(store, open, store', open') && ShowsAll(store, open, xs, vs)
    ensures ShowsAll(store', open', xs, vs)
    decreases vs
  {
    if vs != [] {
      ShowsFrame(store, open, store', open', xs[0], vs[0]);
      ShowsAllFrame(store, open, store', open', xs[1..], vs[1..]);
    }
  }

  lemma {:induction false} ShowsAllSnoc(store: Store, open: set<nat>, xs: seq<Item>, vs: seq<Elem>, x: Item, v: Elem)
    requires ShowsAll(store, open, xs, vs) && Shows(store, open, x, v)
    ensures ShowsAll(store, open, xs + [x], vs + [v])
    decreases |vs|
  {
    if vs == [] {
      assert (xs + [x])[1..] == [] && (vs + [v])[1..] == [];
    } else {
      assert (xs + [x])[1..] == xs[1..] + [x] && (vs + [v])[1..] == vs[1..] + [v];
      ShowsAllSnoc(store, open, xs[1..], vs[1..], x, v);
    }
  }

  /** A list on the stack: items for the values read so far, then the list above it if there is one. */
  ghost predicate Level(store: Store, open: set<nat>, xs: seq<Item>, vs: seq<Elem>, child: seq<Item>) {
    && |xs| == |vs| + |child|
    && xs[|vs|..] == child
    && ShowsAll(store, open, xs[..|vs|], vs)
  }

  ghost function Child(stack: seq<nat>, i: nat): seq<Item>
    requires i < |stack|
  {
    if i + 1 < |stack| then [IRef(stack[i + 1])] else []
  }

  ghost predicate LevelAt(store: Store, open: set<nat>, stack: seq<nat>, vss: seq<seq<Elem>>, i: nat) {
    && i < |stack| == |vss| && stack[i] < |store|
    && Level(store, open, store[stack[i]], vss[i], Child(stack, i))
  }

  ghost predicate Levels(store: Store, open: set<nat>, stack: seq<nat>, vss: seq<seq<Elem>>) {
    && |stack| == |vss|
    && (forall i :: 0 <= i < |stack| ==> stack[i] < |store|)
    && (forall i :: 0 <= i < |stack| ==> LevelAt(store, open, stack, vss, i))
  }

  /** The state of the loader's loop. */
  datatype Machine = Machine(store: Store, stack: seq<nat>, a: nat, rv: nat)

  ghost function Open(m: Machine): set<nat> { Elems(m.stack) + {m.a} }

  /** The objects of the machine stand for the lists being read. */
  ghost predicate Mirrors(m: Machine, r: Reading) {
    && m.a < |m.store| && m.store[m.a] == [] && m.a !in m.stack && NoDup(m.stack)
    && Levels(m.store, Open(m), m.stack, r.stack)
    && (if r.last.Some? then Shows(m.store, Open(m), IRef(m.rv), List(r.last.value))
        else m.rv == if m.stack == [] then m.a else m.stack[0])
  }

  /** `{`: the fresh list goes into the innermost one and on the stack, and a new one is made. */
  function OpenList(m: Machine): Machine
    requires forall i :: 0 <= i < |m.stack| ==> m.stack[i] < |m.store|
  {
    var store := if m.stack == [] then m.store else Appended(m.store, m.stack[|m.stack| - 1], IRef(m.a));
    Machine(store + [[]], m.stack + [m.a], |store|, m.rv)
  }

  function Appended(store: Store, p: nat, x: Item): Store
    requires p < |store|
  {
    store[p := store[p] + [x]]
  }

  function CloseList(m: Machine): Machine
    requires m.stack != []
  {
    var n := |m.stack| - 1;
    m.(stack := m.stack[..n], rv := m.stack[n])
  }

  function AddItem(m: Machine, x: Item): Machine
    requires m.stack != [] && m.stack[|m.stack| - 1] < |m.store|
  {
    m.(store := Appended(m.store, m.stack[|m.stack| - 1], x))
  }

  lemma LevelFrame(store: Store, open: set<nat>, store': Store, open': set<nat>, xs: seq<Item>, vs: seq<Elem>, child: seq<Item>)
    requires Frame(store, open, store', open') && Level(store, open, xs, vs, child)
    ensures Level(store', open', xs, vs, child)
  {
    ShowsAllFrame(store, open, store', open', xs[..|vs|], vs);
  }

  lemma LastFrame(m: Machine, m': Machine, r: Reading)
    requires Mirrors(m, r) && r.last.Some? && Frame(m.store, Open(m), m'.store, Open(m')) && m'.rv == m.rv
    ensures Shows(m'.store, Open(m'), IRef(m'.rv), List(r.last.value))
  {
    ShowsFrame(m.store, Open(m), m'.store, Open(m'), IRef(m.rv), List(r.last.value));
  }

  lemma OpenLevel(m: Machine, r: Reading, i: nat)
    requires Mirrors(m, r) && i < |m.stack|
    ensures var m' := OpenList(m);
            && Frame(m.store, Open(m), m'.store, Open(m'))
            && LevelAt(m'.store, Open(m'), m'.stack, Step(r, "{").value.stack, i)
  {
    var m' := OpenList(m);
    assert LevelAt(m.store, Open(m), m.stack, r.stack, i);
    var xs, k := m.store[m.stack[i]], |r.stack[i]|;
    assert Frame(m.store, Open(m), m'.store, Open(m'));
    LevelFrame(m.store, Open(m), m'.store, Open(m'), xs, r.stack[i], Child(m.stack, i));
    if i == |m.stack| - 1 {
      assert xs[..k] == xs == (xs + [IRef(m.a)])[..k];
    }
  }

  lemma OpenMirrors(m: Machine, r: Reading)
    requires Mirrors(m, r)
    ensures Mirrors(OpenList(m), Step(r, "{").value)
  {
    var m', r' := OpenList(m), Step(r, "{").value;
    var n := |m.stack|;
    assert Frame(m.store, Open(m), m'.store, Open(m'));
    forall i | 0 <= i < n + 1 ensures LevelAt(m'.store, Open(m'), m'.stack, r'.stack, i) {
      if i < n { OpenLevel(m, r, i); }
    }
    if r.last.Some? { LastFrame(m, m', r); }
  }

  lemma AddLevel(m: Machine, r: Reading, x: Item, v: Elem, i: nat)
    requires Mirrors(m, r) && i < |m.stack| && !v.List? && Shows(m.store, Open(m), x, v)
    ensures var m' := AddItem(m, x);
            && Frame(m.store, Open(m), m'.store, Open(m'))
            && LevelAt(m'.store, Open(m'), m'.stack, Push(r, v).stack, i)
  {
    var m' := AddItem(m, x);
    assert LevelAt(m.store, Open(m), m.stack, r.stack, i);
    assert Frame(m.store, Open(m), m'.store, Open(m'));
    var xs, vs := m.store[m.stack[i]], r.stack[i];
    LevelFrame(m.store, Open(m), m'.store, Open(m'), xs, vs, Child(m.stack, i));
    if i == |m.stack| - 1 {
      assert xs[..|vs|] == xs;
      ShowsAllSnoc(m'.store, Open(m'), xs, vs, x, v);
      assert (xs + [x])[..|vs| + 1] == xs + [x];
    }
  }

  lemma AddMirrors(m: Machine, r: Reading, x: Item, v: Elem)
    requires Mirrors(m, r) && m.stack != [] && !v.List? && Shows(m.store, Open(m), x, v)
    ensures Mirrors(AddItem(m, x), Push(r, v))
  {
    var m', r' := AddItem(m, x), Push(r, v);
    forall i | 0 <= i < |m.stack| ensures LevelAt(m'.store, Open(m'), m'.stack, r'.stack, i) {
      AddLevel(m, r, x, v, i);
    }
    AddLevel(m, r, x, v, 0);
    if r.last.Some? { LastFrame(m, m', r); }
  }

  lemma CloseTop(m: Machine, r: Reading)
    requires Mirrors(m, r) && m.stack != []
    ensures var m' := CloseList(m);
            && Frame(m.store, Open(m), m'.store, Open(m'))
            && Shows(m'.store, Open(m'), IRef(m'.rv), List(r.stack[|m.stack| - 1]))
  {
    var m' := CloseList(m);
    var p, vs := m'.rv, r.stack[|m.stack| - 1];
    assert LevelAt(m.store, Open(m), m.stack, r.stack, |m.stack| - 1);
    LevelFrame(m.store, Open(m), m'.store, Open(m'), m.store[p], vs, []);
    assert m.store[p][..|vs|] == m.store[p];
  }

  lemma CloseLevel(m: Machine, r: Reading, i: nat)
    requires Mirrors(m, r) && i + 1 < |m.stack|
    ensures var m' := CloseList(m);
            LevelAt(m'.store, Open(m'), m'.stack, Step(r, "}").value.stack, i)
  {
    var m', n := CloseList(m), |m.stack| - 1;
    CloseTop(m, r);
    assert LevelAt(m.store, Open(m), m.stack, r.stack, i);
    LevelFrame(m.store, Open(m), m'.store, Open(m'), m.store[m.stack[i]], r.stack[i], Child(m.stack, i));
    if i == n - 1 {
      ChildClosed(m'.store, Open(m'), m.store[m.stack[i]], r.stack[i], m.stack[n], List(r.stack[n]));
    }
  }

  lemma CloseMirrors(m: Machine, r: Reading)
    requires Mirrors(m, r) && m.stack != []
    ensures Mirrors(CloseList(m), Step(r, "}").value)
  {
    var m', r' := CloseList(m), Step(r, "}").value;
    CloseTop(m, r);
    forall i | 0 <= i < |m.stack| - 1 ensures LevelAt(m'.store, Open(m'), m'.stack, r'.stack, i) {
      CloseLevel(m, r, i);
    }
  }

  lemma ChildClosed(store: Store, open: set<nat>, xs: seq<Item>, vs: seq<Elem>, p: nat, v: Elem)
    requires Level(store, open, xs, vs, [IRef(p)]) && Shows(store, open, IRef(p), v)
    ensures Level(store, open, xs, vs + [v], [])
  {
    assert xs == xs[..|vs|] + [IRef(p)] by { assert xs[|vs|..] == [IRef(p)]; }
    ShowsAllSnoc(store, open, xs[..|vs|], vs, IRef(p), v);
    assert xs[..|vs| + 1] == xs;
  }

  /** What is left open when the text ends is part of the outermost list all the same. */
  lemma {:induction false} CollapsedShows(m: Machine, r: Reading, i: nat)
    requires Mirrors(m, r) && i < |m.stack|
    ensures Shows(m.store, {}, IRef(m.stack[i]), List(Collapsed(r.stack[i..])))
    decreases |m.stack| - i
  {
    assert LevelAt(m.store, Open(m), m.stack, r.stack, i);
    var xs, vs := m.store[m.stack[i]], r.stack[i];
    ClosedAll(m, xs[..|vs|], vs);
    if i + 1 < |m.stack| {
      CollapsedShows(m, r, i + 1);
      assert r.stack[i..][1..] == r.stack[i + 1..];
      ShowsAllSnoc(m.store, {}, xs[..|vs|], vs, IRef(m.stack[i + 1]), List(Collapsed(r.stack[i + 1..])));
      assert xs == xs[..|vs|] + [IRef(m.stack[i + 1])] by { assert xs[|vs|..] == Child(m.stack, i); }
    } else {
      assert xs[..|vs|] == xs;
    }
  }

  lemma ClosedAll(m: Machine, xs: seq<Item>, vs: seq<Elem>)
    requires ShowsAll(m.store, Open(m), xs, vs)
    ensures ShowsAll(m.store, {}, xs, vs)
  {
    ShowsAllFrame(m.store, Open(m), m.store, {}, xs, vs);
  }

  lemma FinalShows(m: Machine, r: Reading)
    requires Mirrors(m, r)
    ensures Shows(m.store, {}, IRef(m.rv), List(Final(r)))
  {
    if r.last.Some? {
      ShowsFrame(m.store, Open(m), m.store, {}, IRef(m.rv), List(r.last.value));
    } else if m.stack != [] {
      CollapsedShows(m, r, 0);
      assert r.stack[0..] == r.stack;
    }
  }

  // ---------- the loader ----------

  /** One token that is not an opening bracket. */
  method LoadToken(m: Machine, t: Bytes, ghost r: Reading) returns (out: Result<Machine, Error>)
    requires Mirrors(m, r)
    ensures Step(r, t).Err? ==> out == Err(Step(r, t).error)
    ensures Step(r, t).Ok? ==> out.Ok? && Mirrors(out.value, Step(r, t).value)
  {
    if t == "{" {
      OpenMirrors(m, r);
      return Ok(OpenList(m));
    }
    if t == "}" {
      if m.stack == [] { return Err(UnexpectedClose); }
      CloseMirrors(m, r);
      return Ok(CloseList(m));
    }
    if m.stack == [] { return Err(UnexpectedItem); }
    var v := INull;
    if t != "NULL" {
      v := ILeaf(if t != [] && t[0] == '"' then Unescaped(if |t| > 1 then t[1..|t| - 1] else []) else t);
    }
    AddMirrors(m, r, v, Value(t));
    out := Ok(AddItem(m, v));
  }

  /** What is read from the rest of the text. */
  ghost function ReadRest(r: Reading, rest: Bytes, c: Delimiter): Result<Reading, Error> {
    Steps(r, Tokens(rest, c))
  }

  /** One turn of the loop: a token, or a byte that is part of none. */
  method LoadOne(m: Machine, rest: Bytes, c: Delimiter, ghost r: Reading)
    returns (out: Result<Machine, Error>, rest': Bytes, ghost r': Reading)
    requires rest != [] && Mirrors(m, r)
    ensures |rest'| < |rest|
    ensures out.Err? ==> ReadRest(r, rest, c) == Err(out.error)
    ensures out.Ok? ==> Mirrors(out.value, r') && ReadRest(r, rest, c) == ReadRest(r', rest', c)
  {
    var n := TokenLen(rest, c);
    rest', r' := rest[1..], r;
    if n == 0 { return Ok(m), rest', r'; }
    var t := rest[..n];
    out := LoadToken(m, t, r);
    if out.Ok? {
      rest', r' := DropComma(rest[n..]), Step(r, t).value;
    }
  }

  method LoadTokens(body: Bytes, c: Delimiter) returns (out: Result<Machine, Error>)
    ensures var s := ReadRest(Reading([], None), body, c);
            if s.Err? then out == Err(s.error) else out.Ok? && Mirrors(out.value, s.value)
  {
    var m := Machine([[]], [], 0, 0);
    ghost var r := Reading([], None);
    var rest := body;
    while rest != []
      invariant Mirrors(m, r)
      invariant ReadRest(Reading([], None), body, c) == ReadRest(r, rest, c)
      decreases |rest|
    {
      var next, rest', r' := LoadOne(m, rest, c, r);
      if next.Err? { return Err(next.error); }
      m, rest, r := next.value, rest', r';
    }
    assert ReadRest(r, [], c) == Ok(r);
    out := Ok(m);
  }

  lemma LoadIs(data: Bytes, body: Bytes, c: Delimiter)
    requires WithoutDimensions(data) == Ok(body)
    ensures var s := ReadRest(Reading([], None), body, c);
            Load(data, c) == if s.Err? then Err(s.error) else Ok(Final(s.value))
  {
  }

  /** _load_text: the result is the address of a list object that stands for the nested list. */
  method LoadText(data: Bytes, c: Delimiter) returns (out: Result<(Store, nat), Error>)
    ensures Load(data, c).Err? ==> out == Err(Load(data, c).error)
    ensures Load(data, c).Ok? ==> out.Ok? && Shows(out.value.0, {}, IRef(out.value.1), List(Load(data, c).value))
  {
    var body := data;
    if data != [] && data[0] == '[' {
      var idx := FindEquals(data);
      if idx == |data| { return Err(NoDimensions); }
      body := data[idx + 1..];
    }
    LoadIs(data, body, c);
    var m := LoadTokens(body, c);
    if m.Err? { return Err(m.error); }
    FinalShows(m.value, ReadRest(Reading([], None), body, c).value);
    out := Ok((m.value.store, m.value.rv));
  }
}
