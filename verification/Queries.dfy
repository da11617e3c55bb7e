/**
 Queries with placeholders: `%s`, `%t`, `%b`, `%(name)s` and `%%` become `$n` for binding on the
 server, or a template for binding on the client. Both must mean the same query.
 */
module Queries {
  import opened Util

  /** Text as bytes: every char stands for one byte. */
  type Bytes = string

  datatype Format = AUTO | TEXT | BINARY

  datatype Item = Index(i: nat) | Name(name: Bytes)

  datatype QueryPart = QueryPart(pre: Bytes, item: Item, format: Format)

  datatype Error =
    | IncompletePlaceholder
    | BadPlaceholder
    | MixedPlaceholders
    | FormatConflict
    | WrongCount
    | WrongKind
    | Missing
    | BadTemplate

  // ---------- the placeholder pattern ----------

  /** A match of the pattern: its text, and the name in parentheses if it has one. */
  datatype Match = Match(text: Bytes, name: Option<Bytes>)

  /** The position of the first `)` from `from` on, or |q|. */
  function CloseParen(q: Bytes, from: nat): (r: nat)
    requires from <= |q|
    ensures from <= r <= |q| && (r < |q| ==> q[r] == ')')
    ensures forall i :: from <= i < r ==> q[i] != ')'
    decreases |q| - from
  {
    if from == |q| || q[from] == ')' then from else CloseParen(q, from + 1)
  }

  /** The match that starts at the beginning of `q`, if any; a dot matches anything but a newline. */
  function MatchAt(q: Bytes): (r: Option<Match>)
    ensures r.Some? ==> 2 <= |r.value.text| <= |q| && r.value.text == q[..|r.value.text|] && q[0] == '%' && r.value.text[1] != '\n'
    ensures r.None? && q != [] && q[0] == '%' ==> |q| == 1 || q[1] == '\n'
  {
    if |q| < 2 || q[0] != '%' then None else
    var j := if q[1] == '(' then CloseParen(q, 2) else 0;
    if q[1] == '(' && 2 < j && j + 1 < |q| && q[j + 1] != '\n' then Some(Match(q[..j + 2], Some(q[2..j])))
    else if q[1] != '\n' then Some(Match(q[..2], None))
    else None
  }

  /** A query cut at its matches: the text before each match, and the text after the last one. */
  datatype Cut = Cut(pre: Bytes, match_: Option<Match>)

  /** Every piece but the last ends at a match. */
  ghost predicate CutsValid(cuts: seq<Cut>) {
    cuts != [] &&
    if cuts[0].match_.None? then |cuts| == 1
    else 2 <= |cuts[0].match_.value.text| && CutsValid(cuts[1..])
  }

  function Cuts(q: Bytes): (r: seq<Cut>)
    ensures CutsValid(r)
    decreases |q|
  {
    if q == [] then [Cut([], None)] else
    var m := MatchAt(q);
    if m.Some? then [Cut([], m)] + Cuts(q[|m.value.text|..])
    else
      var rest := Cuts(q[1..]);
      var r := [rest[0].(pre := [q[0]] + rest[0].pre)] + rest[1..];
      assert r[1..] == rest[1..];
      r
  }

  predicate NoPercent(cuts: seq<Cut>) {
    cuts != [] ==> '%' !in cuts[0].pre && NoPercent(cuts[1..])
  }

  /** A `%` that is part of no placeholder. */
  predicate HasLonePercent(q: Bytes) {
    !NoPercent(Cuts(q))
  }

  // ---------- splitting ----------

  function FormatOf(m: Match): Option<Format>
    requires m.text != []
  {
    match m.text[|m.text| - 1]
    case 's' => Some(AUTO)
    case 't' => Some(TEXT)
    case 'b' => Some(BINARY)
    case _ => None
  }

  predicate SameKind(a: Item, b: Item) { a.Index? <==> b.Index? }

  /** What is left of a `%%` in the text of the query. */
  function Percent(collapse: bool): Bytes { if collapse then "%" else "%%" }

  /** The first two pieces as one, with `percent` between their texts. */
  function Merged(cuts: seq<Cut>, percent: Bytes): (r: seq<Cut>)
    requires CutsValid(cuts) && cuts[0].match_.Some?
    ensures CutsValid(r) && |r| == |cuts| - 1 && r[1..] == cuts[1..][1..]
    ensures r[0] == Cut(cuts[0].pre + percent + cuts[1].pre, cuts[1].match_)
  {
    var rest := cuts[1..];
    assert CutsValid(rest) && rest[0] == cuts[1];
    var r := [rest[0].(pre := cuts[0].pre + percent + rest[0].pre)] + rest[1..];
    assert r[1..] == rest[1..];
    r
  }

  /** The loop of _split_query from the i-th part on; `kind` is an item of the kind met so far. */
  function Parts(cuts: seq<Cut>, collapse: bool, i: nat, kind: Option<Item>): Result<seq<QueryPart>, Error>
    requires CutsValid(cuts)
    decreases |cuts|
  {
    var Cut(pre, m) := cuts[0];
    if m.None? then Ok([QueryPart(pre, Index(0), AUTO)])
    else if m.value.text == "%%" then Parts(Merged(cuts, Percent(collapse)), collapse, i, kind)
    else if m.value.text == "%(" || m.value.text == "% " then Err(IncompletePlaceholder)
    else if FormatOf(m.value).None? then Err(BadPlaceholder)
    else
      var item := if m.value.name.Some? then Name(m.value.name.value) else Index(i);
      if kind.Some? && !SameKind(kind.value, item) then Err(MixedPlaceholders) else
      After([QueryPart(pre, item, FormatOf(m.value).value)],
            Parts(cuts[1..], collapse, i + 1, if kind.Some? then kind else Some(item)))
  }

  function Split(q: Bytes, collapse: bool): Result<seq<QueryPart>, Error> {
    Parts(Cuts(q), collapse, 0, None)
  }

  /** The parts found so far, before what the rest gives. */
  function After(rv: seq<QueryPart>, rest: Result<seq<QueryPart>, Error>): Result<seq<QueryPart>, Error> {
    if rest.Ok? then Ok(rv + rest.value) else rest
  }

  lemma AfterOne(rv: seq<QueryPart>, part: QueryPart, rest: Result<seq<QueryPart>, Error>)
    ensures After(rv, After([part], rest)) == After(rv + [part], rest)
  {
    if rest.Ok? { assert rv + ([part] + rest.value) == rv + [part] + rest.value; }
  }

  lemma MergedTail(parts: seq<Cut>, i: nat, percent: Bytes)
    requires i < |parts| && CutsValid(parts[i..]) && parts[i].match_.Some?
    ensures i + 1 < |parts|
    ensures (parts[..i] + [parts[i + 1].(pre := parts[i].pre + percent + parts[i + 1].pre)] + parts[i + 2..])[i..]
            == Merged(parts[i..], percent)
  {
    assert parts[i..][1..] == parts[i + 1..];
    var m := Merged(parts[i..], percent);
    assert m == [m[0]] + m[1..];
    assert parts[i..][1..][1..] == parts[i + 2..];
  }

  /** _split_query: the list of parts is edited in place, a `%%` merging a part into the next one. */
  method SplitQuery(q: Bytes, collapse: bool) returns (r: Result<seq<QueryPart>, Error>)
    ensures r == Split(q, collapse)
  {
    var parts := Cuts(q);
    var rv: seq<QueryPart> := [];
    var i := 0;
    var kind: Option<Item> := None;
    assert parts[0..] == parts;
    assert After([], Split(q, collapse)) == Split(q, collapse) by {
      if Split(q, collapse).Ok? { assert [] + Split(q, collapse).value == Split(q, collapse).value; }
    }
    while true
      invariant 0 <= i < |parts| && CutsValid(parts[i..])
      invariant var rest := Parts(parts[i..], collapse, i, kind);
                Split(q, collapse) == After(rv, rest)
      decreases |parts| - i
    {
      var Cut(pre, m) := parts[i];
      if m.None? {
        rv := rv + [QueryPart(pre, Index(0), AUTO)];
        return Ok(rv);
      }
      if m.value.text == "%%" {
        MergedTail(parts, i, Percent(collapse));
        var merged := parts[i + 1].(pre := pre + Percent(collapse) + parts[i + 1].pre);
        parts := parts[..i] + [merged] + parts[i + 2..];
        continue;
      }
      if m.value.text == "%(" || m.value.text == "% " { return Err(IncompletePlaceholder); }
      var format := FormatOf(m.value);
      if format.None? { return Err(BadPlaceholder); }
      var item := if m.value.name.Some? then Name(m.value.name.value) else Index(i);
      if kind.None? {
        kind := Some(item);
      } else if !SameKind(kind.value, item) {
        return Err(MixedPlaceholders);
      }
      assert parts[i..][1..] == parts[i + 1..];
      ghost var rest := Parts(parts[i + 1..], collapse, i + 1, kind);
      AfterOne(rv, QueryPart(pre, item, format.value), rest);
      rv := rv + [QueryPart(pre, item, format.value)];
      i := i + 1;
    }
  }

  // ---------- the query for the server ----------

  /** The texts of the parts with something between each two. */
  function Interleave(parts: seq<QueryPart>, fill: seq<Bytes>): Bytes
    requires |parts| == |fill| + 1
    decreases |parts|
  {
    if fill == [] then parts[0].pre else parts[0].pre + fill[0] + Interleave(parts[1..], fill[1..])
  }

  function IndexOf(names: seq<Bytes>, name: Bytes): (r: nat)
    ensures r <= |names| && (r < |names| ==> names[r] == name)
    ensures forall i :: 0 <= i < r ==> names[i] != name
    ensures r == |names| ==> name !in names
  {
    if names == [] || names[0] == name then 0 else 1 + IndexOf(names[1..], name)
  }

  /** The numbers of the placeholders; the distinct names in order of appearance, with their formats. */
  datatype Numbered = Numbered(numbers: seq<nat>, order: seq<Bytes>, formats: seq<Format>)

  /** The loop over named placeholders, the last part left out. */
  function NumberNames(parts: seq<QueryPart>, n: Numbered): Result<Numbered, Error>
    requires |n.order| == |n.formats|
    requires forall p :: p in parts ==> p.item.Name?
    decreases |parts|
  {
    if parts == [] then Ok(n) else
    var Name(name) := parts[0].item;
    var j := IndexOf(n.order, name);
    if j == |n.order| then
      NumberNames(parts[1..], Numbered(n.numbers + [j + 1], n.order + [name], n.formats + [parts[0].format]))
    else if n.formats[j] != parts[0].format then Err(FormatConflict)
    else NumberNames(parts[1..], n.(numbers := n.numbers + [j + 1]))
  }

  /** Placeholders of one kind, numbered from 0 if positional; the last part stands alone. */
  ghost predicate WellFormed(parts: seq<QueryPart>) {
    && parts != []
    && parts[|parts| - 1].item == Index(0)
    && ((forall k :: 0 <= k < |parts| - 1 ==> parts[k].item == Index(k))
        || (forall k :: 0 <= k < |parts| - 1 ==> parts[k].item.Name?))
  }

  datatype ServerQuery = ServerQuery(query: Bytes, formats: seq<Format>, order: Option<seq<Bytes>>, numbers: seq<nat>)

  function Dollars(numbers: seq<nat>): (r: seq<Bytes>)
    ensures |r| == |numbers|
  {
    seq(|numbers|, i requires 0 <= i < |numbers| => "$" + Decimal(numbers[i]))
  }

  function PartFormats(parts: seq<QueryPart>): seq<Format> {
    seq(|parts|, i requires 0 <= i < |parts| => parts[i].format)
  }

  /** _query2pg_nocache, from the parts on. */
  function ForServer(parts: seq<QueryPart>): Result<ServerQuery, Error>
    requires WellFormed(parts)
  {
    var n := |parts| - 1;
    if parts[0].item.Index? then
      var numbers := seq(n, i => i + 1);
      Ok(ServerQuery(Interleave(parts, Dollars(numbers)), PartFormats(parts[..n]), None, numbers))
    else
      var r := NumberNames(parts[..n], Numbered([], [], []));
      if r.Err? then Err(r.error) else
      NumberNamesLength(parts[..n], Numbered([], [], []));
      Ok(ServerQuery(Interleave(parts, Dollars(r.value.numbers)), r.value.formats, Some(r.value.order), r.value.numbers))
  }

  lemma {:induction false} NumberNamesLength(parts: seq<QueryPart>, n: Numbered)
    requires |n.order| == |n.formats|
    requires forall p :: p in parts ==> p.item.Name?
    ensures NumberNames(parts, n).Ok? ==> |NumberNames(parts, n).value.numbers| == |n.numbers| + |parts|
    decreases |parts|
  {
    if parts != [] {
      var Name(name) := parts[0].item;
      var j := IndexOf(n.order, name);
      if j == |n.order| {
        NumberNamesLength(parts[1..], Numbered(n.numbers + [j + 1], n.order + [name], n.formats + [parts[0].format]));
      } else if n.formats[j] == parts[0].format {
        NumberNamesLength(parts[1..], n.(numbers := n.numbers + [j + 1]));
      }
    }
  }

  /** Numbers given so far point at names in the list; names are distinct; every name has been given a number. */
  ghost predicate Dense(n: Numbered) {
    && |n.order| == |n.formats|
    && (forall i :: 0 <= i < |n.numbers| ==> 1 <= n.numbers[i] <= |n.order|)
    && NoDup(n.order)
    && (forall j :: 1 <= j <= |n.order| ==> j in n.numbers)
  }

  /** A number for one more placeholder: that of its name, listed now if it is new. */
  function Counted(n: Numbered, name: Bytes, format: Format): Numbered
    requires |n.order| == |n.formats|
  {
    var j := IndexOf(n.order, name);
    if j == |n.order| then Numbered(n.numbers + [j + 1], n.order + [name], n.formats + [format])
    else n.(numbers := n.numbers + [j + 1])
  }

  lemma DenseStep(n: Numbered, name: Bytes, format: Format)
    requires Dense(n)
    ensures Dense(Counted(n, name, format))
  {
    var j := IndexOf(n.order, name);
    var numbers := n.numbers + [j + 1];
    assert forall i :: 1 <= i <= |n.order| ==> i in n.numbers && i in numbers;
    assert numbers[|n.numbers|] == j + 1;
  }

  lemma NumberNamesStep(parts: seq<QueryPart>, n: Numbered)
    requires |n.order| == |n.formats| && parts != []
    requires forall p :: p in parts ==> p.item.Name?
    requires NumberNames(parts, n).Ok?
    ensures NumberNames(parts, n) == NumberNames(parts[1..], Counted(n, parts[0].item.name, parts[0].format))
    ensures var name, next := parts[0].item.name, Counted(n, parts[0].item.name, parts[0].format);
            && |next.numbers| == |n.numbers| + 1 && n.numbers <= next.numbers && n.order <= next.order
            && 1 <= next.numbers[|n.numbers|] <= |next.order| && next.order[next.numbers[|n.numbers|] - 1] == name
  {
  }

  /** Numbering is dense, and names are listed once. */
  lemma {:induction false} NumberNamesDense(parts: seq<QueryPart>, n: Numbered)
    requires Dense(n) && forall p :: p in parts ==> p.item.Name?
    requires NumberNames(parts, n).Ok?
    ensures Dense(NumberNames(parts, n).value)
    decreases |parts|
  {
    if parts != [] {
      NumberNamesStep(parts, n);
      DenseStep(n, parts[0].item.name, parts[0].format);
      NumberNamesDense(parts[1..], Counted(n, parts[0].item.name, parts[0].format));
    }
  }

  /** The number given at `at` is that of the part's name. */
  ghost predicate Fits(part: QueryPart, n: Numbered, at: nat) {
    at < |n.numbers| && 1 <= n.numbers[at] <= |n.order| && part.item == Name(n.order[n.numbers[at] - 1])
  }

  /** Each placeholder's number is that of its name. */
  lemma {:induction false} NumberNamesFit(parts: seq<QueryPart>, n: Numbered)
    requires |n.order| == |n.formats| && forall p :: p in parts ==> p.item.Name?
    requires NumberNames(parts, n).Ok?
    ensures var r := NumberNames(parts, n).value;
            && n.order <= r.order && n.numbers <= r.numbers && |r.numbers| == |n.numbers| + |parts|
            && forall k :: 0 <= k < |parts| ==> Fits(parts[k], r, |n.numbers| + k)
    decreases |parts|
  {
    if parts != [] {
      NumberNamesStep(parts, n);
      var next := Counted(n, parts[0].item.name, parts[0].format);
      NumberNamesFit(parts[1..], next);
      var r := NumberNames(parts, n).value;
      assert r.numbers[|n.numbers|] == next.numbers[|n.numbers|];
      forall k | 1 <= k < |parts| ensures Fits(parts[k], r, |n.numbers| + k) {
        assert Fits(parts[1..][k - 1], r, |next.numbers| + (k - 1));
      }
    }
  }

  // ---------- the query for the client ----------

  function Repeat(b: Bytes, n: nat): (r: seq<Bytes>)
    ensures |r| == n && forall i :: 0 <= i < n ==> r[i] == b
  {
    seq(n, _ => b)
  }

  function ItemNames(parts: seq<QueryPart>): (r: seq<Bytes>)
    requires forall p :: p in parts ==> p.item.Name?
    ensures |r| == |parts| && forall i :: 0 <= i < |r| ==> r[i] == parts[i].item.name
  {
    seq(|parts|, i requires 0 <= i < |parts| => parts[i].item.name)
  }

  /** _query2pg_client_nocache, from the parts on: the template, and every name in order. */
  function ForClient(parts: seq<QueryPart>): (Bytes, Option<seq<Bytes>>)
    requires WellFormed(parts)
  {
    var n := |parts| - 1;
    (Interleave(parts, Repeat("%s", n)),
     if parts[0].item.Index? then None else Some(ItemNames(parts[..n])))
  }

  // ---------- parameters ----------

  /** A parameter, as the literal that stands for it; None is NULL. */
  type Value = Option<Bytes>

  function Literal(v: Value): Bytes { if v.None? then "NULL" else v.value }

  datatype Vars = Sequence(values: seq<Value>) | Mapping(values_: map<Bytes, Value>)

  function Literals(vs: seq<Value>): (r: seq<Bytes>)
    ensures |r| == |vs| && forall i :: 0 <= i < |vs| ==> r[i] == Literal(vs[i])
  {
    seq(|vs|, i requires 0 <= i < |vs| => Literal(vs[i]))
  }

  function Pick(m: map<Bytes, Value>, order: seq<Bytes>): (r: seq<Value>)
    requires forall name :: name in order ==> name in m
    ensures |r| == |order| && forall i :: 0 <= i < |order| ==> r[i] == m[order[i]]
  {
    seq(|order|, i requires 0 <= i < |order| => m[order[i]])
  }

  /** validate_and_reorder_params */
  function Reordered(parts: seq<QueryPart>, vars: Vars, order: Option<seq<Bytes>>): Result<seq<Value>, Error>
    requires WellFormed(parts)
  {
    match vars
    case Sequence(vs) =>
      if |vs| != |parts| - 1 then Err(WrongCount)
      else if vs != [] && !parts[0].item.Index? then Err(WrongKind)
      else Ok(vs)
    case Mapping(m) =>
      if m != map[] && |parts| > 1 && !parts[0].item.Name? then Err(WrongKind)
      else if order.None? then Ok([])
      else if forall name :: name in order.value ==> name in m then Ok(Pick(m, order.value))
      else Err(Missing)
  }

  // ---------- bytes % tuple ----------

  /** The `%` operator of bytes, for the two directives that a template can hold. */
  function Percented(template: Bytes, args: seq<Bytes>): Result<Bytes, Error> {
    if template == [] then (if args == [] then Ok([]) else Err(BadTemplate))
    else if template[0] != '%' then Before([template[0]], Percented(template[1..], args))
    else if |template| > 1 && template[1] == '%' then Before("%", Percented(template[2..], args))
    else if |template| > 1 && template[1] == 's' && args != [] then Before(args[0], Percented(template[2..], args[1..]))
    else Err(BadTemplate)
  }

  function Before(b: Bytes, r: Result<Bytes, Error>): Result<Bytes, Error> {
    if r.Ok? then Ok(b + r.value) else r
  }

  // ---------- the two conversions ----------

  /** Placeholders of one kind, numbered from i if positional, and of the kind met before if there is one. */
  ghost predicate OneKind(parts: seq<QueryPart>, i: nat, kind: Option<Item>) {
    && parts != [] && parts[|parts| - 1].item == Index(0)
    && ((forall k :: 0 <= k < |parts| - 1 ==> parts[k].item == Index(i + k))
        || (forall k :: 0 <= k < |parts| - 1 ==> parts[k].item.Name?))
    && (kind.Some? ==> forall k :: 0 <= k < |parts| - 1 ==> SameKind(kind.value, parts[k].item))
  }

  lemma OneKindAdded(part: QueryPart, parts: seq<QueryPart>, i: nat, kind: Option<Item>)
    requires part.item.Name? || part.item == Index(i)
    requires kind.Some? ==> SameKind(kind.value, part.item)
    requires OneKind(parts, i + 1, if kind.Some? then kind else Some(part.item))
    ensures OneKind([part] + parts, i, kind)
  {
    var all := [part] + parts;
    forall k | 0 <= k < |all| - 1
      ensures SameKind(part.item, all[k].item) && (part.item.Index? ==> all[k].item == Index(i + k))
    {
      if k > 0 { assert all[k] == parts[k - 1]; }
    }
  }

  lemma {:induction false} PartsWellFormed(cuts: seq<Cut>, collapse: bool, i: nat, kind: Option<Item>)
    requires CutsValid(cuts)
    ensures var r := Parts(cuts, collapse, i, kind); r.Ok? ==> OneKind(r.value, i, kind)
    decreases |cuts|
  {
    var Cut(pre, m) := cuts[0];
    if m.Some? {
      if m.value.text == "%%" {
        PartsWellFormed(Merged(cuts, Percent(collapse)), collapse, i, kind);
      } else if FormatOf(m.value).Some? {
        var item := if m.value.name.Some? then Name(m.value.name.value) else Index(i);
        var next := if kind.Some? then kind else Some(item);
        PartsWellFormed(cuts[1..], collapse, i + 1, next);
        var rest := Parts(cuts[1..], collapse, i + 1, next);
        if rest.Ok? && (kind.Some? ==> SameKind(kind.value, item)) {
          OneKindAdded(QueryPart(pre, item, FormatOf(m.value).value), rest.value, i, kind);
        }
      }
    }
  }

  lemma SplitWellFormed(q: Bytes, collapse: bool)
    ensures Split(q, collapse).Ok? ==> WellFormed(Split(q, collapse).value)
  {
    PartsWellFormed(Cuts(q), collapse, 0, None);
  }

  /** convert of GaussDBQuery: the query with its placeholders, and the parameters to send. */
  function ConvertForServer(q: Bytes, vars: Vars): Result<(seq<QueryPart>, ServerQuery, seq<Value>), Error> {
    var parts := Split(q, true);
    if parts.Err? then Err(parts.error) else
    SplitWellFormed(q, true);
    var query := ForServer(parts.value);
    if query.Err? then Err(query.error) else
    var params := Reordered(parts.value, vars, query.value.order);
    if params.Err? then Err(params.error) else Ok((parts.value, query.value, params.value))
  }

  /** convert of GaussDBClientQuery: the query with the literals in it. */
  function ConvertForClient(q: Bytes, vars: Vars): Result<Bytes, Error> {
    var parts := Split(q, false);
    if parts.Err? then Err(parts.error) else
    SplitWellFormed(q, false);
    var (template, order) := ForClient(parts.value);
    var params := Reordered(parts.value, vars, order);
    if params.Err? then Err(params.error) else Percented(template, Literals(params.value))
  }

  /** The server query with each `$n` replaced by the literal of the n-th parameter. */
  function Substituted(parts: seq<QueryPart>, query: ServerQuery, params: seq<Value>): Bytes
    requires |parts| == |query.numbers| + 1
    requires forall k :: 0 <= k < |query.numbers| ==> 1 <= query.numbers[k] <= |params|
  {
    Interleave(parts, Substitutes(query.numbers, params))
  }

  function Substitutes(numbers: seq<nat>, params: seq<Value>): (r: seq<Bytes>)
    requires forall k :: 0 <= k < |numbers| ==> 1 <= numbers[k] <= |params|
    ensures |r| == |numbers|
    ensures forall k :: 0 <= k < |r| ==> r[k] == if params[numbers[k] - 1] == None then "NULL" else params[numbers[k] - 1].value
  {
    seq(|numbers|, k requires 0 <= k < |numbers| => Literal(params[numbers[k] - 1]))
  }

  /** An empty mapping is accepted for a query with positional placeholders, and gives no parameter. */
  predicate EmptyMapping(parts: seq<QueryPart>, vars: Vars) {
    vars.Mapping? && |parts| > 1 && parts[0].item.Index?
  }

  // ---------- reading a piece of template ----------

  /** What a piece of template without `%s` stands for. */
  datatype Reading = Plain(text: Bytes) | Broken | Dangling | Directive

  function Read(s: Bytes): Reading {
    if s == [] then Plain([])
    else if s[0] != '%' then Prefixed([s[0]], Read(s[1..]))
    else if |s| == 1 then Dangling
    else if s[1] == '%' then Prefixed("%", Read(s[2..]))
    else if s[1] == '\n' then Broken
    else Directive
  }

  function Prefixed(b: Bytes, r: Reading): Reading {
    if r.Plain? then Plain(b + r.text) else r
  }

  lemma {:induction false} ReadAppend(a: Bytes, b: Bytes)
    ensures Read(a).Plain? ==> Read(a + b) == Prefixed(Read(a).text, Read(b))
    ensures Read(a).Broken? ==> Read(a + b) == Broken
  {
    if a == [] {
      assert a + b == b;
      assert Read(b).Plain? ==> [] + Read(b).text == Read(b).text;
    } else if a[0] != '%' {
      assert (a + b)[1..] == a[1..] + b;
      ReadAppend(a[1..], b);
    } else if |a| > 1 && a[1] == '%' {
      assert (a + b)[2..] == a[2..] + b;
      ReadAppend(a[2..], b);
    }
  }

  lemma BeforeTwice(a: Bytes, b: Bytes, r: Result<Bytes, Error>)
    ensures Before(a, Before(b, r)) == Before(a + b, r)
  {
    if r.Ok? { assert a + (b + r.value) == a + b + r.value; }
  }

  /** Formatting goes through a readable piece and on with the rest, and fails on an unreadable one. */
  lemma {:induction false} PercentedAppend(s: Bytes, rest: Bytes, args: seq<Bytes>)
    ensures Read(s).Plain? ==> Percented(s + rest, args) == Before(Read(s).text, Percented(rest, args))
    ensures Read(s).Broken? ==> Percented(s + rest, args).Err?
    ensures Read(s).Dangling? && rest == [] ==> Percented(s + rest, args).Err?
  {
    if s == [] {
      assert s + rest == rest;
      assert Percented(rest, args).Ok? ==> [] + Percented(rest, args).value == Percented(rest, args).value;
    } else if s[0] != '%' {
      assert (s + rest)[1..] == s[1..] + rest;
      PercentedAppend(s[1..], rest, args);
      if Read(s).Plain? { BeforeTwice([s[0]], Read(s[1..]).text, Percented(rest, args)); }
    } else if |s| > 1 && s[1] == '%' {
      assert (s + rest)[2..] == s[2..] + rest;
      PercentedAppend(s[2..], rest, args);
      if Read(s).Plain? { BeforeTwice("%", Read(s[2..]).text, Percented(rest, args)); }
    }
  }

  // ---------- both ways of splitting ----------

  /** Every `%` left in a piece of query is followed by a newline, or ends the query. */
  ghost predicate OnlyLonePercents(pre: Bytes, last: bool) {
    pre != [] ==>
      && (pre[0] == '%' ==> if |pre| > 1 then pre[1] == '\n' else last)
      && OnlyLonePercents(pre[1..], last)
  }

  ghost predicate CutsLone(cuts: seq<Cut>) {
    cuts != [] ==> OnlyLonePercents(cuts[0].pre, |cuts| == 1) && CutsLone(cuts[1..])
  }

  lemma {:induction false} CutsLeaveLonePercents(q: Bytes)
    ensures CutsLone(Cuts(q))
    ensures q != [] && MatchAt(q).None? ==> Cuts(q)[0].pre != [] && Cuts(q)[0].pre[0] == q[0]
    decreases |q|
  {
    if q != [] {
      var m := MatchAt(q);
      var rest := if m.Some? then q[|m.value.text|..] else q[1..];
      CutsLeaveLonePercents(rest);
      var c := Cuts(rest);
      if m.Some? {
        assert Cuts(q)[1..] == c;
      } else {
        assert Cuts(q)[1..] == c[1..];
        assert Cuts(q)[0].pre[1..] == c[0].pre;
        if q[0] == '%' && |q| > 1 {
          assert MatchAt(rest).None?;
        }
      }
    }
  }

  predicate PercentEndsLine(q: Bytes, i: nat) {
    i < |q| && q[i] == '%' && (i + 1 == |q| || q[i + 1] == '\n')
  }

  lemma {:induction false} LonePercentAt(q: Bytes) returns (i: nat)
    requires HasLonePercent(q)
    ensures PercentEndsLine(q, i)
    decreases |q|
  {
    var m := MatchAt(q);
    if q != [] && m.None? && q[0] == '%' {
      i := 0;
    } else {
      var n := if m.Some? then |m.value.text| else 1;
      var rest := q[n..];
      assert Cuts(q)[1..] == if m.Some? then Cuts(rest) else Cuts(rest)[1..];
      var j := LonePercentAt(rest);
      i := j + n;
    }
  }

  /** A lone `%` stands before a newline or at the end of the query. */
  lemma LonePercentEndsLine(q: Bytes)
    requires HasLonePercent(q)
    ensures exists i: nat :: PercentEndsLine(q, i)
  {
    var i := LonePercentAt(q);
  }

  lemma {:induction false} ReadLonePercents(pre: Bytes, last: bool)
    requires OnlyLonePercents(pre, last)
    ensures Read(pre) == Plain(pre) || Read(pre).Broken? || (last && Read(pre).Dangling?)
    ensures Read(pre).Plain? <==> '%' !in pre
  {
    if pre != [] {
      ReadLonePercents(pre[1..], last);
      assert pre == [pre[0]] + pre[1..];
    }
  }

  /** The text `t` of a client part stands for the text `s` of the server part, unless it holds a lone percent. */
  ghost predicate StandsFor(t: Bytes, s: Bytes, last: bool) {
    Read(t) == Plain(s) || Read(t).Broken? || (last && Read(t).Dangling?)
  }

  ghost predicate SamePart(c: QueryPart, s: QueryPart, last: bool) {
    c.item == s.item && c.format == s.format && StandsFor(c.pre, s.pre, last)
  }

  ghost predicate SameParts(cs: seq<QueryPart>, ss: seq<QueryPart>) {
    && |cs| == |ss|
    && (cs != [] ==> SamePart(cs[0], ss[0], |cs| == 1) && SameParts(cs[1..], ss[1..]))
  }

  ghost predicate AllPlain(parts: seq<QueryPart>) {
    parts != [] ==> Read(parts[0].pre).Plain? && AllPlain(parts[1..])
  }

  lemma PartAdded(c: QueryPart, s: QueryPart, cs: seq<QueryPart>, ss: seq<QueryPart>)
    requires SamePart(c, s, false) && SameParts(cs, ss) && cs != []
    ensures SameParts([c] + cs, [s] + ss)
    ensures AllPlain([c] + cs) <==> Read(c.pre).Plain? && AllPlain(cs)
  {
    assert ([c] + cs)[1..] == cs && ([s] + ss)[1..] == ss;
  }

  /** What the two ways of splitting have in common, if the text so far is plain in one exactly when `plain`. */
  ghost predicate SameOutcome(c: Result<seq<QueryPart>, Error>, s: Result<seq<QueryPart>, Error>, plain: bool) {
    && (c.Err? || s.Err? ==> c == s)
    && (c.Ok? ==> SameParts(c.value, s.value) && c.value != [] && (AllPlain(c.value) <==> plain))
  }

  lemma PlaceholderAdded(c: QueryPart, s: QueryPart, cs: Result<seq<QueryPart>, Error>, ss: Result<seq<QueryPart>, Error>,
                         plain: bool)
    requires SamePart(c, s, false) && SameOutcome(cs, ss, plain)
    ensures SameOutcome(After([c], cs), After([s], ss), Read(c.pre).Plain? && plain)
  {
    if cs.Ok? { PartAdded(c, s, cs.value, ss.value); }
  }

  /** Collapsing `%%` or not, the same parts come out, or the same error. */
  lemma {:induction false} SplitBoth(cs: seq<Cut>, ss: seq<Cut>, i: nat, kind: Option<Item>)
    requires CutsValid(cs) && CutsValid(ss) && |cs| == |ss| && cs[1..] == ss[1..] && cs[0].match_ == ss[0].match_
    requires StandsFor(cs[0].pre, ss[0].pre, |cs| == 1) && CutsLone(cs[1..])
    ensures SameOutcome(Parts(cs, false, i, kind), Parts(ss, true, i, kind), Read(cs[0].pre).Plain? && NoPercent(cs[1..]))
    decreases |cs|
  {
    var m := cs[0].match_;
    if m.None? {
    } else if m.value.text == "%%" {
      SplitMerged(cs, ss);
      SplitBoth(Merged(cs, "%%"), Merged(ss, "%"), i, kind);
    } else if FormatOf(m.value).Some? {
      var item := if m.value.name.Some? then Name(m.value.name.value) else Index(i);
      var next := if kind.Some? then kind else Some(item);
      ReadLonePercents(cs[1..][0].pre, |cs[1..]| == 1);
      SplitBoth(cs[1..], ss[1..], i + 1, next);
      var part := QueryPart(cs[0].pre, item, FormatOf(m.value).value);
      PlaceholderAdded(part, part.(pre := ss[0].pre), Parts(cs[1..], false, i + 1, next), Parts(ss[1..], true, i + 1, next),
                       NoPercent(cs[1..]));
    }
  }

  lemma SplitMerged(cs: seq<Cut>, ss: seq<Cut>)
    requires CutsValid(cs) && CutsValid(ss) && |cs| == |ss| && cs[1..] == ss[1..] && cs[0].match_ == ss[0].match_
    requires StandsFor(cs[0].pre, ss[0].pre, false) && CutsLone(cs[1..]) && cs[0].match_.Some?
    ensures StandsFor(Merged(cs, "%%")[0].pre, Merged(ss, "%")[0].pre, |cs| == 2)
    ensures Merged(cs, "%%")[0].match_ == Merged(ss, "%")[0].match_
    ensures CutsLone(Merged(cs, "%%")[1..])
    ensures Read(Merged(cs, "%%")[0].pre).Plain? && NoPercent(Merged(cs, "%%")[1..])
            <==> Read(cs[0].pre).Plain? && NoPercent(cs[1..])
  {
    assert cs[1] == cs[1..][0] && ss[1] == ss[1..][0];
    MergeStandsFor(cs[0].pre, ss[0].pre, cs[1].pre, |cs| == 2);
  }

  lemma ReadMerged(c: Bytes, pre: Bytes)
    ensures Read(c).Plain? ==> Read(c + "%%" + pre) == Prefixed(Read(c).text, Prefixed("%", Read(pre)))
    ensures Read(c).Broken? ==> Read(c + "%%" + pre) == Broken
  {
    var tail := "%%" + pre;
    assert c + "%%" + pre == c + tail;
    assert tail[2..] == pre;
    ReadAppend(c, tail);
  }

  lemma MergeStandsFor(c: Bytes, s: Bytes, pre: Bytes, last: bool)
    requires StandsFor(c, s, false) && OnlyLonePercents(pre, last)
    ensures StandsFor(c + "%%" + pre, s + "%" + pre, last)
    ensures Read(c + "%%" + pre).Plain? <==> Read(c).Plain? && '%' !in pre
  {
    ReadMerged(c, pre);
    if Read(c).Plain? {
      ReadLonePercents(pre, last);
      assert s + ("%" + pre) == s + "%" + pre;
    }
  }

  // ---------- the two bindings ----------

  /** Formatting a piece of text and the `%s` after it. */
  lemma FormatsField(pre: Bytes, rest: Bytes, args: seq<Bytes>)
    ensures Read(pre).Plain? && args != [] ==>
              Percented(pre + "%s" + rest, args) == Before(Read(pre).text + args[0], Percented(rest, args[1..]))
    ensures (Read(pre).Plain? && args == []) || Read(pre).Broken? ==> Percented(pre + "%s" + rest, args).Err?
  {
    var field := "%s" + rest;
    assert pre + "%s" + rest == pre + field;
    PercentedAppend(pre, field, args);
    assert field[2..] == rest;
    if Read(pre).Plain? && args != [] {
      BeforeTwice(Read(pre).text, args[0], Percented(rest, args[1..]));
    }
  }

  lemma FormatsLast(pre: Bytes, last: Bytes)
    requires StandsFor(pre, last, true)
    ensures Percented(pre, []) == if Read(pre).Plain? then Ok(last) else Err(BadTemplate)
  {
    assert pre + [] == pre;
    PercentedAppend(pre, [], []);
    assert Percented([], []) == Ok([]);
    assert last + [] == last;
    PercentedError(pre, []);
  }

  lemma {:induction false} PercentedError(template: Bytes, args: seq<Bytes>)
    ensures Percented(template, args).Err? ==> Percented(template, args) == Err(BadTemplate)
  {
    if template != [] && (template[0] != '%' || (|template| > 1 && (template[1] == '%' || (template[1] == 's' && args != [])))) {
      PercentedError(template[if template[0] != '%' then 1 else 2..],
                     if template[0] == '%' && template[1] == 's' then args[1..] else args);
    }
  }

  /** Formatting a template: the parts with the arguments between them, if every part can be read. */
  lemma {:induction false} FormatsTemplate(cs: seq<QueryPart>, ss: seq<QueryPart>, args: seq<Bytes>)
    requires cs != [] && SameParts(cs, ss) && |args| < |cs|
    ensures var r := Percented(Interleave(cs, Repeat("%s", |cs| - 1)), args);
            if AllPlain(cs) && |args| == |cs| - 1 then r == Ok(Interleave(ss, args)) else r.Err?
    decreases |cs|
  {
    var fill := Repeat("%s", |cs| - 1);
    if |cs| == 1 {
      assert AllPlain(cs) <==> Read(cs[0].pre).Plain?;
      FormatsLast(cs[0].pre, ss[0].pre);
    } else {
      assert fill[1..] == Repeat("%s", |cs| - 2);
      FormatsField(cs[0].pre, Interleave(cs[1..], fill[1..]), args);
      if args != [] {
        FormatsTemplate(cs[1..], ss[1..], args[1..]);
        if AllPlain(cs) && |args| == |cs| - 1 {
        }
      }
    }
  }

  lemma SplitOfBoth(q: Bytes)
    ensures var c := Split(q, false);
            var s := Split(q, true);
            && (c.Err? || s.Err? ==> c == s)
            && (c.Ok? ==> SameParts(c.value, s.value) && (AllPlain(c.value) <==> !HasLonePercent(q)))
  {
    var cuts := Cuts(q);
    CutsLeaveLonePercents(q);
    ReadLonePercents(cuts[0].pre, |cuts| == 1);
    SplitBoth(cuts, cuts, 0, None);
  }

  lemma {:induction false} SamePartsItems(cs: seq<QueryPart>, ss: seq<QueryPart>)
    requires SameParts(cs, ss)
    ensures forall k :: 0 <= k < |cs| ==> cs[k].item == ss[k].item
    decreases |cs|
  {
    if cs != [] {
      SamePartsItems(cs[1..], ss[1..]);
      assert forall k :: 1 <= k < |cs| ==> cs[k] == cs[1..][k - 1] && ss[k] == ss[1..][k - 1];
    }
  }

  /** The numbers of a server query: dense from 1 on, and each the number of its item. */
  ghost predicate NumbersFit(parts: seq<QueryPart>, s: ServerQuery) {
    && |s.numbers| == |parts| - 1
    && s.query == Interleave(parts, Dollars(s.numbers))
    && (s.order.None? ==> forall k :: 0 <= k < |s.numbers| ==> s.numbers[k] == k + 1)
    && (s.order.Some? ==>
         && NoDup(s.order.value)
         && |s.formats| == |s.order.value|
         && (forall k :: 0 <= k < |s.numbers| ==> 1 <= s.numbers[k] <= |s.order.value|)
         && (forall j :: 1 <= j <= |s.order.value| ==> j in s.numbers)
         && (forall k :: 0 <= k < |s.numbers| ==> parts[k].item == Name(s.order.value[s.numbers[k] - 1])))
  }

  lemma ServerNumbers(parts: seq<QueryPart>)
    requires WellFormed(parts) && ForServer(parts).Ok?
    ensures NumbersFit(parts, ForServer(parts).value)
    ensures ForServer(parts).value.order.None? <==> parts[0].item.Index?
  {
    if parts[0].item.Index? {
      assert ForServer(parts).value.numbers == seq(|parts| - 1, i => i + 1);
    } else {
      NamedNumbers(parts);
    }
  }

  lemma NamedNumbers(parts: seq<QueryPart>)
    requires WellFormed(parts) && parts[0].item.Name? && ForServer(parts).Ok?
    ensures ForServer(parts).value.order.Some? && NumbersFit(parts, ForServer(parts).value)
  {
    var named, start := parts[..|parts| - 1], Numbered([], [], []);
    NumberNamesDense(named, start);
    NumberNamesFit(named, start);
    var r := NumberNames(named, start).value;
    assert ForServer(parts).value == ServerQuery(Interleave(parts, Dollars(r.numbers)), r.formats, Some(r.order), r.numbers);
    forall k | 0 <= k < |named| ensures parts[k].item == Name(r.order[r.numbers[k] - 1]) {
      assert Fits(named[k], r, |start.numbers| + k);
    }
  }

  /** Each number is that of a parameter, and the k-th number that of the k-th value. */
  ghost predicate Bound(numbers: seq<nat>, params: seq<Value>, values: seq<Value>) {
    && |values| == |numbers|
    && forall k :: 0 <= k < |numbers| ==> 1 <= numbers[k] <= |params| && params[numbers[k] - 1] == values[k]
  }

  /** The parameters that the two sides bind to the k-th placeholder are the same. */
  lemma SameParameters(cs: seq<QueryPart>, ss: seq<QueryPart>, vars: Vars)
    requires WellFormed(cs) && WellFormed(ss) && SameParts(cs, ss) && ForServer(ss).Ok?
    requires Reordered(ss, vars, ForServer(ss).value.order).Ok?
    ensures var s := ForServer(ss).value;
            var params := Reordered(ss, vars, s.order).value;
            var r := Reordered(cs, vars, ForClient(cs).1);
            && |s.numbers| == |ss| - 1 && r.Ok? && |r.value| < |cs|
            && (EmptyMapping(ss, vars) <==> |r.value| != |cs| - 1)
            && (!EmptyMapping(ss, vars) ==> Bound(s.numbers, params, r.value))
  {
    SamePartsItems(cs, ss);
    ServerNumbers(ss);
    assert cs[0].item == ss[0].item;
    if ss[0].item.Name? {
      SameNamed(cs, ss, vars, ForServer(ss).value);
    }
  }

  lemma SameNamed(cs: seq<QueryPart>, ss: seq<QueryPart>, vars: Vars, s: ServerQuery)
    requires WellFormed(cs) && WellFormed(ss) && |cs| == |ss| && cs[0].item.Name? && ss[0].item.Name?
    requires forall k :: 0 <= k < |cs| ==> cs[k].item == ss[k].item
    requires NumbersFit(ss, s) && s.order.Some? && Reordered(ss, vars, s.order).Ok?
    ensures var params := Reordered(ss, vars, s.order).value;
            var r := Reordered(cs, vars, ForClient(cs).1);
            r.Ok? && Bound(s.numbers, params, r.value)
  {
    var names := ItemNames(cs[..|cs| - 1]);
    forall k | 0 <= k < |names| ensures names[k] in vars.values_ && names[k] == s.order.value[s.numbers[k] - 1] {
      assert cs[k].item == ss[k].item;
      assert names[k] in s.order.value;
    }
  }

  /**
   Client and server binding agree. When the server-side conversion succeeds, the client-side one
   gives the `$n` query with each placeholder replaced by the literal of its parameter, unless the
   query has a lone `%` or an empty mapping stands for positional parameters: then it fails.
   */
  lemma BindingsAgree(q: Bytes, vars: Vars)
    requires ConvertForServer(q, vars).Ok?
    ensures var (parts, query, params) := ConvertForServer(q, vars).value;
            && NumbersFit(parts, query)
            && if HasLonePercent(q) || EmptyMapping(parts, vars) then ConvertForClient(q, vars).Err?
               else (forall k :: 0 <= k < |query.numbers| ==> 1 <= query.numbers[k] <= |params|)
                    && ConvertForClient(q, vars) == Ok(Substituted(parts, query, params))
  {
    var (ss, query, params) := ConvertForServer(q, vars).value;
    ServerConverts(q, vars);
    SplitOfBoth(q);
    SplitWellFormed(q, false);
    PartsAgree(q, Split(q, false).value, ss, vars);
  }

  lemma ServerConverts(q: Bytes, vars: Vars)
    requires ConvertForServer(q, vars).Ok?
    ensures var (ss, query, params) := ConvertForServer(q, vars).value;
            && Split(q, true) == Ok(ss) && WellFormed(ss)
            && ForServer(ss) == Ok(query) && Reordered(ss, vars, query.order) == Ok(params)
  {
    SplitWellFormed(q, true);
  }

  lemma PartsAgree(q: Bytes, cs: seq<QueryPart>, ss: seq<QueryPart>, vars: Vars)
    requires Split(q, false) == Ok(cs) && WellFormed(cs) && WellFormed(ss) && SameParts(cs, ss)
    requires ForServer(ss).Ok? && Reordered(ss, vars, ForServer(ss).value.order).Ok?
    ensures var s := ForServer(ss).value;
            var params := Reordered(ss, vars, s.order).value;
            && NumbersFit(ss, s)
            && if !AllPlain(cs) || EmptyMapping(ss, vars) then ConvertForClient(q, vars).Err?
               else (forall k :: 0 <= k < |s.numbers| ==> 1 <= s.numbers[k] <= |params|)
                    && ConvertForClient(q, vars) == Ok(Substituted(ss, s, params))
  {
    SameParameters(cs, ss, vars);
    ServerNumbers(ss);
    var args := Literals(Reordered(cs, vars, ForClient(cs).1).value);
    FormatsTemplate(cs, ss, args);
    ClientConverts(q, vars, cs, args);
    if !EmptyMapping(ss, vars) { TheirLiterals(cs, ss, vars); }
  }

  /** The literals of the client stand where the server has the numbers of their parameters. */
  lemma TheirLiterals(cs: seq<QueryPart>, ss: seq<QueryPart>, vars: Vars)
    requires WellFormed(cs) && WellFormed(ss) && SameParts(cs, ss) && ForServer(ss).Ok? && !EmptyMapping(ss, vars)
    requires Reordered(ss, vars, ForServer(ss).value.order).Ok?
    ensures var s := ForServer(ss).value;
            var params := Reordered(ss, vars, s.order).value;
            var values := Reordered(cs, vars, ForClient(cs).1);
            && |s.numbers| == |ss| - 1 && (forall k :: 0 <= k < |s.numbers| ==> 1 <= s.numbers[k] <= |params|)
            && values.Ok? && |values.value| == |ss| - 1
            && Substituted(ss, s, params) == Interleave(ss, Literals(values.value))
  {
    SameParameters(cs, ss, vars);
    var s := ForServer(ss).value;
    SubstitutedIs(ss, s, Reordered(ss, vars, s.order).value, Reordered(cs, vars, ForClient(cs).1).value);
  }

  lemma ClientConverts(q: Bytes, vars: Vars, cs: seq<QueryPart>, args: seq<Bytes>)
    requires Split(q, false) == Ok(cs) && WellFormed(cs)
    requires Reordered(cs, vars, ForClient(cs).1).Ok? && args == Literals(Reordered(cs, vars, ForClient(cs).1).value)
    ensures ConvertForClient(q, vars) == Percented(Interleave(cs, Repeat("%s", |cs| - 1)), args)
  {
  }

  lemma SubstitutedIs(parts: seq<QueryPart>, query: ServerQuery, params: seq<Value>, values: seq<Value>)
    requires |parts| == |query.numbers| + 1 && Bound(query.numbers, params, values)
    ensures Substituted(parts, query, params) == Interleave(parts, Literals(values))
  {
    assert Literals(values) == Substitutes(query.numbers, params);
  }
}
