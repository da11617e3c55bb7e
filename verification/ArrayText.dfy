/** The text form of arrays: the printer of nested lists, the tokenizer, and the reader. */
module ArrayText {

  // The reader builds nested lists with an explicit stack of references. Elements are byte strings:
  // the dumper and the loader of the elements are taken as the identity.

  import opened NestedLists
  import opened Util

  /** Text as bytes: every char stands for one byte. */
  type Bytes = string

  /** A nested list, as Python code gives it. */
  type Elem = Nested<Bytes>

  datatype Error = UnexpectedClose | UnexpectedItem | NoDimensions

  /** The delimiters that types declare. */
  type Delimiter = c: char | c in ",;" witness ','

  // ---------- printing ----------

  /** A char that makes an element need quotes. */
  predicate Special(x: char, c: Delimiter) { x in "\"{}\\" || x == c || Space(x) }

  predicate IsNullWord(b: Bytes) {
    |b| == 4 && b[0] in "nN" && b[1] in "uU" && b[2] in "lL" && b[3] in "lL"
  }

  predicate NeedsQuotes(b: Bytes, c: Delimiter) {
    b == [] || (exists i :: 0 <= i < |b| && Special(b[i], c)) || IsNullWord(b)
  }

  function Escaped(b: Bytes): Bytes {
    if b == [] then [] else (if b[0] in "\"\\" then "\\" + [b[0]] else [b[0]]) + Escaped(b[1..])
  }

  function Quoted(b: Bytes): Bytes { "\"" + Escaped(b) + "\"" }

  function LeafText(b: Bytes, c: Delimiter): Bytes {
    if NeedsQuotes(b, c) then Quoted(b) else b
  }

  function Text(e: Elem, c: Delimiter): Bytes {
    match e
    case Null => "NULL"
    case Leaf(b) => LeafText(b, c)
    case List(es) => "{" + Joined(es, c) + "}"
  }

  /** The texts of the items with a delimiter between each two. */
  function Joined(es: seq<Elem>, c: Delimiter): Bytes {
    if es == [] then []
    else if |es| == 1 then Text(es[0], c)
    else Text(es[0], c) + [c] + Joined(es[1..], c)
  }

  // ---------- tokens ----------

  function Plus(n: nat, k: nat): nat { if k == 0 then 0 else n + k }

  /** How long the rest of a quoted string is, its closing quote included; 0 if it has none. */
  function QuotedLen(s: Bytes): (r: nat)
    ensures r <= |s|
  {
    if s == [] then 0
    else if s[0] == '"' then 1
    else if s[0] != '\\' then Plus(1, QuotedLen(s[1..]))
    else if |s| > 1 && s[1] != '\n' then Plus(2, QuotedLen(s[2..]))
    else 0
  }

  predicate InWord(x: char, c: Delimiter) { x !in "\"{}\\" && x != c }

  function WordLen(s: Bytes, c: Delimiter): (r: nat)
    ensures r <= |s|
    ensures r == 0 <==> s == [] || !InWord(s[0], c)
  {
    if s == [] || !InWord(s[0], c) then 0 else 1 + WordLen(s[1..], c)
  }

  /** The length of the token at the start of `s`, 0 if there is none. */
  function TokenLen(s: Bytes, c: Delimiter): (r: nat)
    ensures r <= |s|
  {
    if s == [] then 0
    else if s[0] in "{}" then 1
    else if s[0] == '"' then Plus(1, QuotedLen(s[1..]))
    else WordLen(s, c)
  }

  /** A comma after a token belongs to the match, whatever the delimiter. */
  function DropComma(s: Bytes): Bytes { if s != [] && s[0] == ',' then s[1..] else s }

  /** The tokens that finditer meets; what matches nothing is passed over. */
  function Tokens(s: Bytes, c: Delimiter): seq<Bytes>
    decreases |s|
  {
    if s == [] then []
    else
      var n := TokenLen(s, c);
      if n == 0 then Tokens(s[1..], c) else [s[..n]] + Tokens(DropComma(s[n..]), c)
  }

  function Unescaped(s: Bytes): Bytes {
    if s == [] then []
    else if s[0] == '\\' && |s| > 1 && s[1] != '\n' then [s[1]] + Unescaped(s[2..])
    else [s[0]] + Unescaped(s[1..])
  }

  /** The value of a token that is not a bracket. */
  function Value(t: Bytes): Elem {
    if t == "NULL" then Null
    else if t != [] && t[0] == '"' then Leaf(Unescaped(if |t| > 1 then t[1..|t| - 1] else []))
    else Leaf(t)
  }

  // ---------- reading: what it means ----------

  /** The lists being read, outermost first; each but the last will hold the next one as its last item. */
  datatype Reading = Reading(stack: seq<seq<Elem>>, last: Option<seq<Elem>>)

  function Push(r: Reading, e: Elem): Reading
    requires r.stack != []
  {
    var n := |r.stack| - 1;
    r.(stack := r.stack[..n] + [r.stack[n] + [e]])
  }

  function Step(r: Reading, t: Bytes): Result<Reading, Error> {
    if t == "{" then Ok(r.(stack := r.stack + [[]]))
    else if r.stack == [] then Err(if t == "}" then UnexpectedClose else UnexpectedItem)
    else if t == "}" then
      var n := |r.stack| - 1;
      var closed := Reading(r.stack[..n], Some(r.stack[n]));
      Ok(if n == 0 then closed else Push(closed, List(r.stack[n])))
    else Ok(Push(r, Value(t)))
  }

  function Steps(r: Reading, ts: seq<Bytes>): Result<Reading, Error>
    decreases |ts|
  {
    if ts == [] then Ok(r) else
    var s := Step(r, ts[0]);
    if s.Err? then s else Steps(s.value, ts[1..])
  }

  /** Lists still open, as the items of the outermost one. */
  function Collapsed(stack: seq<seq<Elem>>): seq<Elem> {
    if stack == [] then [] else
    if |stack| == 1 then stack[0] else stack[0] + [List(Collapsed(stack[1..]))]
  }

  /** The list closed last; if none was, the outermost one. */
  function Final(r: Reading): seq<Elem> {
    if r.last.Some? then r.last.value else Collapsed(r.stack)
  }

  /** The position of the first `=`, or |s|. */
  function FindEquals(s: Bytes): (r: nat)
    ensures r <= |s| && (r < |s| ==> s[r] == '=')
    ensures forall i :: 0 <= i < r ==> s[i] != '='
  {
    if s == [] || s[0] == '=' then 0 else 1 + FindEquals(s[1..])
  }

  /** The text without a prefix like `[1:3]=`. */
  function WithoutDimensions(s: Bytes): Result<Bytes, Error> {
    if s == [] || s[0] != '[' then Ok(s)
    else if FindEquals(s) == |s| then Err(NoDimensions)
    else Ok(s[FindEquals(s) + 1..])
  }

  /** _load_text */
  function Load(s: Bytes, c: Delimiter): Result<seq<Elem>, Error> {
    var body := WithoutDimensions(s);
    if body.Err? then Err(body.error) else
    var r := Steps(Reading([], None), Tokens(body.value, c));
    if r.Err? then Err(r.error) else Ok(Final(r.value))
  }

  // ---------- what a printed list is read as ----------

  /** A first item that loses its leading comma: with `;` for delimiter, a comma needs no quotes. */
  predicate LosesComma(e: Elem, c: Delimiter) {
    e.Leaf? && !NeedsQuotes(e.b, c) && e.b[0] == ','
  }

  /** What the first item of a list is read as. */
  function FirstRead(e: Elem, c: Delimiter): seq<Elem>
    decreases e, 1
  {
    if !LosesComma(e, c) then [AsRead(e, c)]
    else if |e.b| == 1 then []
    else [Value(e.b[1..])]
  }

  function AsRead(e: Elem, c: Delimiter): Elem
    decreases e, 0
  {
    if e.List? then List(AllRead(e.es, c)) else e
  }

  function RestRead(es: seq<Elem>, c: Delimiter): (r: seq<Elem>)
    ensures |r| == |es|
  {
    if es == [] then [] else [AsRead(es[0], c)] + RestRead(es[1..], c)
  }

  /** What the items of a list are read as. */
  function AllRead(es: seq<Elem>, c: Delimiter): seq<Elem> {
    if es == [] then [] else FirstRead(es[0], c) + RestRead(es[1..], c)
  }

  /** Some list, at any depth, starts with an item that loses its comma. */
  predicate SomeLosesComma(es: seq<Elem>, c: Delimiter)
    decreases es, 1
  {
    es != [] && (LosesComma(es[0], c) || DeepLoses(es, c))
  }

  predicate DeepLoses(es: seq<Elem>, c: Delimiter)
    decreases es, 0
  {
    es != [] && ((es[0].List? && SomeLosesComma(es[0].es, c)) || DeepLoses(es[1..], c))
  }

  // ---------- the tokens of a printed list ----------

  function ItemTokens(e: Elem, c: Delimiter): seq<Bytes>
    decreases e, 0
  {
    if e.List? then ["{"] + ListTokens(e.es, c) + ["}"] else [Text(e, c)]
  }

  function RestTokens(es: seq<Elem>, c: Delimiter): seq<Bytes> {
    if es == [] then [] else ItemTokens(es[0], c) + RestTokens(es[1..], c)
  }

  function FirstTokens(e: Elem, c: Delimiter): seq<Bytes>
    decreases e, 1
  {
    if !LosesComma(e, c) then ItemTokens(e, c)
    else if |e.b| == 1 then []
    else [e.b[1..]]
  }

  function ListTokens(es: seq<Elem>, c: Delimiter): seq<Bytes> {
    if es == [] then [] else FirstTokens(es[0], c) + RestTokens(es[1..], c)
  }

  /** What can stand after an item: nothing, a delimiter, or the end of the list around it. */
  predicate Ends(rest: Bytes, c: Delimiter) {
    rest == [] || rest[0] == c || rest[0] == '}'
  }

  lemma {:induction false} QuotedLenOf(b: Bytes, rest: Bytes)
    ensures QuotedLen(Escaped(b) + "\"" + rest) == |Escaped(b)| + 1
  {
    var s := Escaped(b) + "\"" + rest;
    if b != [] {
      QuotedLenOf(b[1..], rest);
      var n := if b[0] in "\"\\" then 2 else 1;
      assert s[n..] == Escaped(b[1..]) + "\"" + rest;
    }
  }

  lemma {:induction false} UnescapedEscaped(b: Bytes)
    ensures Unescaped(Escaped(b)) == b
  {
    if b != [] {
      UnescapedEscaped(b[1..]);
      var n := if b[0] in "\"\\" then 2 else 1;
      assert Escaped(b)[n..] == Escaped(b[1..]);
    }
  }

  lemma {:induction false} WordLenOf(b: Bytes, rest: Bytes, c: Delimiter)
    requires forall i :: 0 <= i < |b| ==> InWord(b[i], c)
    requires Ends(rest, c)
    ensures WordLen(b + rest, c) == |b|
  {
    if b == [] {
      assert b + rest == rest;
    } else {
      assert (b + rest)[1..] == b[1..] + rest;
      WordLenOf(b[1..], rest, c);
    }
  }

  lemma TokensWord(b: Bytes, rest: Bytes, c: Delimiter)
    requires b != [] && forall i :: 0 <= i < |b| ==> InWord(b[i], c)
    requires Ends(rest, c)
    ensures Tokens(b + rest, c) == [b] + Tokens(DropComma(rest), c)
  {
    WordLenOf(b, rest, c);
    assert InWord(b[0], c) && (b + rest)[0] == b[0];
  }

  lemma TokensQuoted(b: Bytes, rest: Bytes, c: Delimiter)
    ensures Tokens(Quoted(b) + rest, c) == [Quoted(b)] + Tokens(DropComma(rest), c)
  {
    QuotedLenOf(b, rest);
    var s := Quoted(b) + rest;
    assert s[0] == '"';
    assert s[1..] == Escaped(b) + "\"" + rest;
  }

  lemma TokensLeaf(e: Elem, rest: Bytes, c: Delimiter)
    requires !e.List? && Ends(rest, c)
    ensures Tokens(Text(e, c) + rest, c) == [Text(e, c)] + Tokens(DropComma(rest), c)
  {
    if e.Null? {
      TokensWord("NULL", rest, c);
    } else if NeedsQuotes(e.b, c) {
      TokensQuoted(e.b, rest, c);
    } else {
      assert forall i :: 0 <= i < |e.b| ==> !Special(e.b[i], c);
      TokensWord(e.b, rest, c);
    }
  }

  /** A delimiter after a token leaves no trace. */
  lemma TokensDelimiter(rest: Bytes, c: Delimiter)
    ensures Tokens(DropComma([c] + rest), c) == Tokens(rest, c)
  {
    var s := [c] + rest;
    assert s[1..] == rest;
  }

  /** An item is cut into its own tokens. */
  lemma {:induction false} TokensOf(e: Elem, rest: Bytes, c: Delimiter)
    requires Ends(rest, c)
    ensures Tokens(Text(e, c) + rest, c) == ItemTokens(e, c) + Tokens(DropComma(rest), c)
    decreases e, 1
  {
    if e.List? {
      var tail := "}" + rest;
      var body := Joined(e.es, c) + tail;
      Regroup("{", Joined(e.es, c), "}", rest);
      TokensList(e, tail, c);
      assert DropComma(tail) == tail;
      Regroup(["{"], ListTokens(e.es, c), ["}"], Tokens(DropComma(rest), c));
    } else {
      TokensLeaf(e, rest, c);
    }
  }

  /** The inside of a list, right after the opening bracket and the comma it may swallow. */
  lemma {:induction false} TokensList(e: Elem, tail: Bytes, c: Delimiter)
    requires e.List? && tail != [] && tail[0] == '}'
    ensures Tokens(DropComma(Joined(e.es, c) + tail), c) == ListTokens(e.es, c) + Tokens(tail, c)
    decreases e, 0
  {
    var es := e.es;
    if es == [] {
      TokensNone(tail, c);
    } else {
      JoinedFirst(es, tail, c);
      TokensFirst(es[0], AfterFirst(es, tail, c), c);
      assert es[0..] == es;
      TokensRest(e, 1, tail, c);
      Regroup(FirstTokens(es[0], c), RestTokens(es[1..], c), Tokens(tail, c), []);
    }
  }

  lemma TokensNone(tail: Bytes, c: Delimiter)
    requires tail != [] && tail[0] == '}'
    ensures Tokens(DropComma(Joined([], c) + tail), c) == ListTokens([], c) + Tokens(tail, c)
  {
    assert Joined([], c) + tail == tail;
    assert [] + Tokens(tail, c) == Tokens(tail, c);
  }

  /** The text after the first item. */
  function AfterFirst(es: seq<Elem>, tail: Bytes, c: Delimiter): Bytes
    requires es != []
  {
    if |es| == 1 then tail else [c] + (Joined(es[1..], c) + tail)
  }

  lemma JoinedFirst(es: seq<Elem>, tail: Bytes, c: Delimiter)
    requires es != []
    ensures Joined(es, c) + tail == Text(es[0], c) + AfterFirst(es, tail, c)
  {
    if |es| > 1 { Regroup(Text(es[0], c), [c], Joined(es[1..], c), tail); }
  }

  lemma TokensRestStep(es: seq<Elem>, tail: Bytes, c: Delimiter)
    requires es != [] && tail != [] && tail[0] == '}'
    requires var rest := AfterFirst(es, tail, c);
             && Tokens(Text(es[0], c) + rest, c) == ItemTokens(es[0], c) + Tokens(DropComma(rest), c)
             && Tokens(DropComma(rest), c) == RestTokens(es[1..], c) + Tokens(tail, c)
    ensures Tokens(DropComma([c] + (Joined(es, c) + tail)), c) == RestTokens(es, c) + Tokens(tail, c)
  {
    TokensDelimiter(Joined(es, c) + tail, c);
    JoinedFirst(es, tail, c);
    Regroup(ItemTokens(es[0], c), RestTokens(es[1..], c), Tokens(tail, c), []);
  }

  lemma TokensRestEnd(tail: Bytes, c: Delimiter)
    requires tail != [] && tail[0] == '}'
    ensures Tokens(DropComma(tail), c) == RestTokens([], c) + Tokens(tail, c)
  {
  }

  /** The items from the i-th on, after a token and the comma it may swallow. */
  lemma {:induction false} TokensRest(e: Elem, i: nat, tail: Bytes, c: Delimiter)
    requires e.List? && 1 <= i <= |e.es| && tail != [] && tail[0] == '}'
    ensures Tokens(DropComma(AfterFirst(e.es[i - 1..], tail, c)), c) == RestTokens(e.es[i..], c) + Tokens(tail, c)
    decreases e, 0, |e.es| - i
  {
    var es := e.es[i..];
    assert e.es[i - 1..][1..] == es;
    if es == [] {
      TokensRestEnd(tail, c);
    } else {
      TokensOf(es[0], AfterFirst(es, tail, c), c);
      TokensRest(e, i + 1, tail, c);
      assert es[1..] == e.es[i + 1..];
      TokensRestStep(es, tail, c);
    }
  }

  /** A first item, with its leading comma gone if it has one in plain sight. */
  lemma {:induction false} TokensFirst(e: Elem, rest: Bytes, c: Delimiter)
    requires Ends(rest, c) && rest != []
    ensures Tokens(DropComma(Text(e, c) + rest), c) == FirstTokens(e, c) + Tokens(DropComma(rest), c)
    decreases e, 2
  {
    if LosesComma(e, c) {
      var b := e.b;
      assert forall i :: 0 <= i < |b| ==> !Special(b[i], c);
      assert (b + rest)[1..] == b[1..] + rest;
      if |b| == 1 {
        assert b[1..] + rest == rest;
        LoneComma(rest, c);
      } else {
        assert forall i :: 0 <= i < |b[1..]| ==> InWord(b[1..][i], c);
        TokensWord(b[1..], rest, c);
      }
    } else {
      TextStart(e, c);
      assert (Text(e, c) + rest)[0] == Text(e, c)[0];
      TokensOf(e, rest, c);
    }
  }

  lemma TextStart(e: Elem, c: Delimiter)
    ensures Text(e, c) != [] && (Text(e, c)[0] == ',' <==> LosesComma(e, c))
  {
    if e.Leaf? && !NeedsQuotes(e.b, c) {
      assert !Special(e.b[0], c);
    }
  }

  /** With `;` for delimiter nothing is lost at the end of an item. */
  lemma LoneComma(rest: Bytes, c: Delimiter)
    requires Ends(rest, c) && c == ';'
    ensures [] + Tokens(DropComma(rest), c) == Tokens(rest, c)
  {
  }

  // ---------- reading the tokens ----------

  lemma {:induction false} StepsAppend(r: Reading, a: seq<Bytes>, b: seq<Bytes>)
    requires Steps(r, a).Ok?
    decreases |a|
    ensures Steps(r, a + b) == Steps(Steps(r, a).value, b)
  {
    if a == [] {
      assert a + b == b;
    } else {
      assert (a + b)[1..] == a[1..] + b;
      StepsAppend(Step(r, a[0]).value, a[1..], b);
    }
  }

  function PushAll(r: Reading, es: seq<Elem>): Reading
    requires r.stack != []
  {
    var n := |r.stack| - 1;
    r.(stack := r.stack[..n] + [r.stack[n] + es])
  }

  lemma PushNone(r: Reading)
    requires r.stack != []
    ensures PushAll(r, []) == r
  {
    var n := |r.stack| - 1;
    assert r.stack[n] + [] == r.stack[n];
    assert r.stack[..n] + [r.stack[n]] == r.stack;
  }

  lemma PushAllTwice(r: Reading, a: seq<Elem>, b: seq<Elem>)
    requires r.stack != []
    ensures PushAll(PushAll(r, a), b) == PushAll(r, a + b)
  {
    var n := |r.stack| - 1;
    assert r.stack[n] + a + b == r.stack[n] + (a + b);
  }

  lemma StepLeaf(r: Reading, e: Elem, c: Delimiter)
    requires r.stack != [] && !e.List?
    ensures Step(r, Text(e, c)) == Ok(Push(r, e))
  {
    if e.Leaf? {
      if NeedsQuotes(e.b, c) {
        UnescapedEscaped(e.b);
        assert Quoted(e.b)[1..|Quoted(e.b)| - 1] == Escaped(e.b);
      } else {
        assert e.b[0] in e.b && !Special(e.b[0], c);
      }
    }
  }

  lemma StepWord(r: Reading, b: Bytes, c: Delimiter)
    requires r.stack != [] && b != [] && forall i :: 0 <= i < |b| ==> InWord(b[i], c)
    ensures Step(r, b) == Ok(Push(r, Value(b)))
  {
    assert InWord(b[0], c);
  }

  /** The same list closed, whatever was last closed before it. */
  ghost predicate SameStack(s: Result<Reading, Error>, r: Reading) {
    s.Ok? && s.value.stack == r.stack
  }

  /** Reading the tokens of an item adds the item to the innermost list. */
  lemma {:induction false} StepsItem(r: Reading, e: Elem, c: Delimiter)
    requires r.stack != []
    ensures SameStack(Steps(r, ItemTokens(e, c)), Push(r, AsRead(e, c)))
    decreases e, 2
  {
    if e.List? {
      var open := r.(stack := r.stack + [[]]);
      assert ["{"] + ListTokens(e.es, c) + ["}"] == ["{"] + (ListTokens(e.es, c) + ["}"]);
      StepsList(r, e, c);
      StepsAppend(open, ListTokens(e.es, c), ["}"]);
      assert (["{"] + (ListTokens(e.es, c) + ["}"]))[1..] == ListTokens(e.es, c) + ["}"];
      var full := Steps(open, ListTokens(e.es, c)).value;
      assert full.stack[..|full.stack| - 1] == r.stack;
      assert Steps(full, ["}"]) == Step(full, "}");
    } else {
      StepLeaf(r, e, c);
    }
  }

  /** Reading the inside of a list in a fresh one. */
  lemma {:induction false} StepsList(r: Reading, e: Elem, c: Delimiter)
    requires e.List?
    ensures SameStack(Steps(r.(stack := r.stack + [[]]), ListTokens(e.es, c)), r.(stack := r.stack + [AllRead(e.es, c)]))
    decreases e, 1
  {
    var open := r.(stack := r.stack + [[]]);
    if e.es != [] {
      StepsFirst(open, e, c);
      var first := Steps(open, FirstTokens(e.es[0], c)).value;
      StepsRest(first, e, 1, c);
      StepsAppend(open, FirstTokens(e.es[0], c), RestTokens(e.es[1..], c));
      PushAllTwice(open, FirstRead(e.es[0], c), RestRead(e.es[1..], c));
      assert open.stack[..|open.stack| - 1] == r.stack;
      assert [] + AllRead(e.es, c) == AllRead(e.es, c);
    }
  }

  lemma {:induction false} StepsFirst(r: Reading, e: Elem, c: Delimiter)
    requires r.stack != [] && e.List? && e.es != []
    ensures SameStack(Steps(r, FirstTokens(e.es[0], c)), PushAll(r, FirstRead(e.es[0], c)))
    decreases e, 0
  {
    var x := e.es[0];
    if !LosesComma(x, c) {
      StepsItem(r, x, c);
    } else if |x.b| > 1 {
      assert forall i :: 0 <= i < |x.b| ==> !Special(x.b[i], c);
      assert forall i :: 0 <= i < |x.b[1..]| ==> InWord(x.b[1..][i], c);
      StepWord(r, x.b[1..], c);
    } else {
      PushNone(r);
    }
  }

  lemma {:induction false} StepsRest(r: Reading, e: Elem, i: nat, c: Delimiter)
    requires r.stack != [] && e.List? && i <= |e.es|
    ensures SameStack(Steps(r, RestTokens(e.es[i..], c)), PushAll(r, RestRead(e.es[i..], c)))
    decreases e, 0, |e.es| - i
  {
    var es := e.es[i..];
    if es != [] {
      StepsItem(r, es[0], c);
      var one := Steps(r, ItemTokens(es[0], c)).value;
      StepsRest(one, e, i + 1, c);
      assert es[1..] == e.es[i + 1..];
      StepsAppend(r, ItemTokens(es[0], c), RestTokens(es[1..], c));
      PushAllTwice(r, [AsRead(es[0], c)], RestRead(es[1..], c));
    } else {
      PushNone(r);
    }
  }

  // ---------- the round trip ----------

  /** Reading a printed list gives the list, save for the commas that first items lose. */
  lemma ReadsBack(es: seq<Elem>, c: Delimiter)
    ensures Load(Text(List(es), c), c) == Ok(AllRead(es, c))
  {
    var e := List(es);
    var s := Text(e, c);
    assert s[0] == '{';
    TokensOf(e, [], c);
    assert s + [] == s;
    assert ItemTokens(e, c) + [] == ItemTokens(e, c);
    var start := Reading([], None);
    var inner := ListTokens(es, c);
    assert ["{"] + inner + ["}"] == ["{"] + (inner + ["}"]);
    assert (["{"] + (inner + ["}"]))[1..] == inner + ["}"];
    assert start.stack + [[]] == [[]];
    StepsList(start, e, c);
    StepsAppend(start.(stack := [[]]), inner, ["}"]);
    var full := Steps(start.(stack := [[]]), inner).value;
    assert full.stack == [AllRead(es, c)];
    assert Steps(full, ["}"]) == Step(full, "}");
  }

  lemma {:induction false} NothingLostIff(es: seq<Elem>, c: Delimiter)
    ensures AllRead(es, c) == es <==> !SomeLosesComma(es, c)
    decreases es, 1
  {
    if es != [] {
      RestNothingLost(es, c);
      FirstLength(es, c);
    }
  }

  lemma FirstLength(es: seq<Elem>, c: Delimiter)
    requires es != []
    ensures LosesComma(es[0], c) ==> AllRead(es, c) != es
    ensures !LosesComma(es[0], c) ==> AllRead(es, c) == RestRead(es, c)
  {
    if LosesComma(es[0], c) && |es[0].b| > 1 {
      var b := es[0].b;
      assert AllRead(es, c) == [Value(b[1..])] + RestRead(es[1..], c);
      assert |b[1..]| < |b|;
      assert !Special(b[1], c);
    }
  }

  lemma FirstOfBoth(a: seq<Elem>, b: seq<Elem>)
    requires a != [] && b != []
    ensures a == b <==> a[0] == b[0] && a[1..] == b[1..]
  {
    assert a == [a[0]] + a[1..] && b == [b[0]] + b[1..];
  }

  lemma {:induction false} RestNothingLost(es: seq<Elem>, c: Delimiter)
    ensures RestRead(es, c) == es <==> !DeepLoses(es, c)
    decreases es, 0
  {
    if es != [] {
      if es[0].List? { NothingLostIff(es[0].es, c); }
      RestNothingLost(es[1..], c);
      FirstOfBoth(es, RestRead(es, c));
      assert RestRead(es, c)[1..] == RestRead(es[1..], c) && RestRead(es, c)[0] == AsRead(es[0], c);
    }
  }

  lemma {:induction false} CommaKeepsAll(es: seq<Elem>)
    ensures !SomeLosesComma(es, ',') && !DeepLoses(es, ',')
    decreases es
  {
    if es != [] {
      if LosesComma(es[0], ',') {
        assert Special(es[0].b[0], ',');
      }
      if es[0].List? { CommaKeepsAll(es[0].es); }
      CommaKeepsAll(es[1..]);
    }
  }

  /**
   The round trip: with `,` for delimiter every nested list is read back as it was; with `;` exactly
   those where no list starts with an unquoted element whose first byte is a comma.
   */
  lemma RoundTrip(es: seq<Elem>, c: Delimiter)
    ensures Load(Text(List(es), c), c) == Ok(es) <==> !SomeLosesComma(es, c)
    ensures c == ',' ==> Load(Text(List(es), c), c) == Ok(es)
  {
    ReadsBack(es, c);
    NothingLostIff(es, c);
    if c == ',' { CommaKeepsAll(es); }
  }

  /** A dimension prefix changes nothing. */
  lemma DimensionsIgnored(dims: Bytes, es: seq<Elem>, c: Delimiter)
    requires '=' !in dims
    ensures Load("[" + dims + "=" + Text(List(es), c), c) == Load(Text(List(es), c), c)
  {
    var body := Text(List(es), c);
    var s := "[" + dims + "=" + body;
    var n := |dims| + 1;
    assert s[n] == '=';
    assert forall i :: 1 <= i < n ==> s[i] == dims[i - 1];
    assert FindEquals(s) == n;
    assert s[n + 1..] == body;
    assert body[0] == '{';
  }
}
