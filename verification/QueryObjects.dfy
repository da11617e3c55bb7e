/**
 The query objects of the cursors: the loops that build the text of a query from its parts, and the
 fields that convert and dump set, so that a query can be filled with other parameters later. Each
 is proved equal to the functions of module Queries.
 */
module QueryObjects {
  import opened Util
  import opened Queries

  /** Each part's text followed by its filling. */
  function Joined(parts: seq<QueryPart>, fill: seq<Bytes>): Bytes
    requires |parts| == |fill|
    decreases |parts|
  {
    if parts == [] then [] else
    var n := |parts| - 1;
    Joined(parts[..n], fill[..n]) + parts[n].pre + fill[n]
  }

  /** Text after text: the joined parts, then the last one. */
  lemma {:induction false} JoinedInterleave(parts: seq<QueryPart>, fill: seq<Bytes>, k: nat)
    requires |parts| == |fill| + 1 && k <= |fill|
    ensures Joined(parts[..k], fill[..k]) + Interleave(parts[k..], fill[k..]) == Interleave(parts, fill)
  {
    if k == 0 {
      assert parts[0..] == parts && fill[0..] == fill;
    } else {
      JoinedInterleave(parts, fill, k - 1);
      assert parts[..k][..k - 1] == parts[..k - 1] && fill[..k][..k - 1] == fill[..k - 1];
      assert parts[k - 1..][1..] == parts[k..] && fill[k - 1..][1..] == fill[k..];
    }
  }

  lemma JoinedAll(parts: seq<QueryPart>, fill: seq<Bytes>)
    requires |parts| == |fill| + 1
    ensures Interleave(parts, fill) == Joined(parts[..|fill|], fill) + parts[|fill|].pre
  {
    JoinedInterleave(parts, fill, |fill|);
    assert fill[..|fill|] == fill;
  }

  lemma ChunksStep(chunks: seq<Bytes>, parts: seq<QueryPart>, fill: seq<Bytes>, part: QueryPart, f: Bytes)
    requires |parts| == |fill| && Concat(chunks) == Joined(parts, fill)
    ensures Concat(chunks + [part.pre] + [f]) == Joined(parts + [part], fill + [f])
  {
    ConcatSnoc(chunks, part.pre);
    ConcatSnoc(chunks + [part.pre], f);
    assert (parts + [part])[..|parts|] == parts && (fill + [f])[..|fill|] == fill;
  }

  lemma DollarsStep(numbers: seq<nat>, n: nat)
    ensures Dollars(numbers + [n]) == Dollars(numbers) + ["$" + Decimal(n)]
  {
  }

  lemma ChunksEnd(chunks: seq<Bytes>, parts: seq<QueryPart>, fill: seq<Bytes>)
    requires |parts| == |fill| + 1 && Concat(chunks) == Joined(parts[..|fill|], fill)
    ensures Concat(chunks + [parts[|fill|].pre]) == Interleave(parts, fill)
  {
    ConcatSnoc(chunks, parts[|fill|].pre);
    JoinedAll(parts, fill);
  }

  /** The dictionary of the names met, against the two lists. */
  ghost predicate SeenIs(seen: map<Bytes, (Bytes, Format)>, n: Numbered) {
    && |n.order| == |n.formats| == |seen|
    && (forall name :: name in seen <==> name in n.order)
    && (forall j :: 0 <= j < |n.order| ==> seen[n.order[j]] == ("$" + Decimal(j + 1), n.formats[j]))
  }

  lemma SeenStep(seen: map<Bytes, (Bytes, Format)>, n: Numbered, name: Bytes, format: Format)
    requires SeenIs(seen, n) && name !in seen
    ensures SeenIs(seen[name := ("$" + Decimal(|seen| + 1), format)],
                   Numbered(n.numbers + [|seen| + 1], n.order + [name], n.formats + [format]))
  {
    assert forall j :: 0 <= j < |n.order| ==> n.order[j] in seen;
  }

  /** Where a name was met first, and what the dictionary says of it. */
  lemma SeenAt(seen: map<Bytes, (Bytes, Format)>, n: Numbered, name: Bytes)
    requires SeenIs(seen, n)
    ensures var j := IndexOf(n.order, name);
            if name in seen then j < |n.order| && seen[name] == ("$" + Decimal(j + 1), n.formats[j]) else j == |seen|
  {
  }

  /** One more part and its number. */
  lemma NumberStep(chunks: seq<Bytes>, parts: seq<QueryPart>, i: nat, numbers: seq<nat>, number: nat)
    requires i == |numbers| < |parts| && Concat(chunks) == Joined(parts[..i], Dollars(numbers))
    ensures Concat(chunks + [parts[i].pre] + ["$" + Decimal(number)])
            == Joined(parts[..i + 1], Dollars(numbers + [number]))
  {
    assert parts[..i + 1] == parts[..i] + [parts[i]];
    ChunksStep(chunks, parts[..i], Dollars(numbers), parts[i], "$" + Decimal(number));
    DollarsStep(numbers, number);
  }

  /** The numbers of positional placeholders. */
  function UpTo(n: nat): seq<nat> { seq(n, i => i + 1) }

  lemma UpToStep(n: nat)
    ensures UpTo(n + 1) == UpTo(n) + [n + 1]
  {
  }

  lemma FormatsStep(parts: seq<QueryPart>, i: nat)
    requires i < |parts|
    ensures PartFormats(parts[..i + 1]) == PartFormats(parts[..i]) + [parts[i].format]
  {
  }

  method PositionalChunks(parts: seq<QueryPart>) returns (chunks: seq<Bytes>, formats: seq<Format>)
    requires WellFormed(parts) && parts[0].item.Index?
    ensures ForServer(parts) == Ok(ServerQuery(Concat(chunks), formats, None, UpTo(|parts| - 1)))
  {
    chunks, formats := [], [];
    var n := |parts| - 1;
    for i := 0 to n
      invariant Concat(chunks) == Joined(parts[..i], Dollars(UpTo(i)))
      invariant formats == PartFormats(parts[..i])
    {
      NumberStep(chunks, parts, i, UpTo(i), i + 1);
      UpToStep(i);
      FormatsStep(parts, i);
      chunks := chunks + [parts[i].pre] + ["$" + Decimal(parts[i].item.i + 1)];
      formats := formats + [parts[i].format];
    }
    ChunksEnd(chunks, parts, Dollars(UpTo(n)));
    chunks := chunks + [parts[n].pre];
  }

  lemma NamedIs(parts: seq<QueryPart>)
    requires WellFormed(parts) && parts[0].item.Name?
    ensures var n := |parts| - 1;
            && (forall p :: p in parts[..n] ==> p.item.Name?)
            && var r := NumberFrom(parts[..n], 0, Numbered([], [], []));
            && (r.Err? ==> ForServer(parts) == Err(r.error))
            && (r.Ok? ==> (|r.value.numbers| == n
                && ForServer(parts) == Ok(ServerQuery(Interleave(parts, Dollars(r.value.numbers)), r.value.formats,
                                                      Some(r.value.order), r.value.numbers))))
  {
    var named := parts[..|parts| - 1];
    assert named[0..] == named;
    NumberNamesLength(named, Numbered([], [], []));
  }

  /** The numbering of the names from the i-th on. */
  function NumberFrom(parts: seq<QueryPart>, i: nat, n: Numbered): Result<Numbered, Error>
    requires i <= |parts| && |n.order| == |n.formats|
    requires forall p :: p in parts ==> p.item.Name?
  {
    NumberNames(parts[i..], n)
  }

  /** One more name, after those of `n`; nothing if it was met with another format. */
  ghost function Another(n: Numbered, part: QueryPart): (r: Option<Numbered>)
    requires |n.order| == |n.formats| && part.item.Name?
    ensures r.Some? ==> |r.value.order| == |r.value.formats|
  {
    var j := IndexOf(n.order, part.item.name);
    if j == |n.order| then Some(Numbered(n.numbers + [j + 1], n.order + [part.item.name], n.formats + [part.format]))
    else if n.formats[j] != part.format then None
    else Some(n.(numbers := n.numbers + [j + 1]))
  }

  lemma NumberFromStep(parts: seq<QueryPart>, i: nat, n: Numbered)
    requires i < |parts| && |n.order| == |n.formats|
    requires forall p :: p in parts ==> p.item.Name?
    ensures var m := Another(n, parts[i]);
            NumberFrom(parts, i, n) == if m.None? then Err(FormatConflict) else NumberFrom(parts, i + 1, m.value)
  {
    assert parts[i..][1..] == parts[i + 1..];
  }

  /** One turn of the loop over the parts with names. */
  method NameOne(part: QueryPart, seen: map<Bytes, (Bytes, Format)>, formats: seq<Format>, order: seq<Bytes>, ghost n: Numbered)
    returns (ph: Option<Bytes>, seen': map<Bytes, (Bytes, Format)>, formats': seq<Format>, order': seq<Bytes>, ghost n': Numbered)
    requires part.item.Name? && SeenIs(seen, n) && n.order == order && n.formats == formats
    ensures ph.None? <==> Another(n, part).None?
    ensures ph.Some? ==>
              && Another(n, part) == Some(n') && n'.order == order' && n'.formats == formats' && SeenIs(seen', n')
              && n'.numbers != [] && n'.numbers == n.numbers + [n'.numbers[|n'.numbers| - 1]]
              && ph.value == "$" + Decimal(n'.numbers[|n'.numbers| - 1])
  {
    var Name(name) := part.item;
    ghost var j := IndexOf(order, name);
    SeenAt(seen, n, name);
    seen', formats', order', n' := seen, formats, order, n;
    if name !in seen {
      ph := Some("$" + Decimal(|seen| + 1));
      SeenStep(seen, n, name, part.format);
      seen' := seen[name := (ph.value, part.format)];
      order' := order + [name];
      formats' := formats + [part.format];
      n' := Numbered(n.numbers + [j + 1], order', formats');
    } else if seen[name].1 != part.format {
      ph := None;
    } else {
      ph := Some(seen[name].0);
      n' := n.(numbers := n.numbers + [j + 1]);
    }
  }

  /** The loop over the parts with names. */
  method NameParts(named: seq<QueryPart>)
    returns (r: Result<(seq<Bytes>, seq<Format>, seq<Bytes>), Error>, ghost numbers: seq<nat>)
    requires forall p :: p in named ==> p.item.Name?
    ensures r.Err? ==> NumberFrom(named, 0, Numbered([], [], [])) == Err(r.error)
    ensures r.Ok? ==>
              && |numbers| == |named| && |r.value.1| == |r.value.2|
              && NumberFrom(named, 0, Numbered([], [], [])) == Ok(Numbered(numbers, r.value.2, r.value.1))
              && Concat(r.value.0) == Joined(named, Dollars(numbers))
  {
    var seen: map<Bytes, (Bytes, Format)> := map[];
    var chunks: seq<Bytes>, formats: seq<Format>, order: seq<Bytes> := [], [], [];
    ghost var n := Numbered([], [], []);
    numbers := [];
    for i := 0 to |named|
      invariant n == Numbered(numbers, order, formats) && |numbers| == i && SeenIs(seen, n)
      invariant Concat(chunks) == Joined(named[..i], Dollars(numbers))
      invariant NumberFrom(named, 0, Numbered([], [], [])) == NumberFrom(named, i, n)
    {
      NumberFromStep(named, i, n);
      var ph;
      ph, seen, formats, order, n := NameOne(named[i], seen, formats, order, n);
      if ph.None? { return Err(FormatConflict), numbers; }
      NumberStep(chunks, named, i, numbers, n.numbers[i]);
      chunks := chunks + [named[i].pre] + [ph.value];
      numbers := n.numbers;
    }
    assert named[..|named|] == named && named[|named|..] == [];
    r := Ok((chunks, formats, order));
  }

  method NamedChunks(parts: seq<QueryPart>)
    returns (r: Result<(seq<Bytes>, seq<Format>, seq<Bytes>), Error>)
    requires WellFormed(parts) && parts[0].item.Name?
    ensures r.Err? ==> ForServer(parts) == Err(r.error)
    ensures r.Ok? ==> ForServer(parts).Ok?
    ensures r.Ok? ==> var s := ForServer(parts).value;
              Concat(r.value.0) == s.query && r.value.1 == s.formats && s.order == Some(r.value.2)
  {
    var n := |parts| - 1;
    NamedIs(parts);
    var named, numbers := NameParts(parts[..n]);
    if named.Err? { return named; }
    ChunksEnd(named.value.0, parts, Dollars(numbers));
    r := Ok((named.value.0 + [parts[n].pre], named.value.1, named.value.2));
  }

  /** What _query2pg_nocache returns. */
  datatype Converted = Converted(query: Bytes, formats: seq<Format>, order: Option<seq<Bytes>>, parts: seq<QueryPart>)

  /** _query2pg_nocache: the chunks are appended one by one and joined at the end. */
  method Query2Pg(q: Bytes) returns (r: Result<Converted, Error>)
    ensures Split(q, true).Err? ==> r == Err(Split(q, true).error)
    ensures Split(q, true).Ok? ==> WellFormed(Split(q, true).value)
    ensures Split(q, true).Ok? ==>
              var s := ForServer(Split(q, true).value);
              r == if s.Err? then Err(s.error) else Ok(Converted(s.value.query, s.value.formats, s.value.order, Split(q, true).value))
  {
    var split := SplitQuery(q, true);
    if split.Err? { return Err(split.error); }
    var parts := split.value;
    SplitWellFormed(q, true);
    if parts[0].item.Index? {
      var chunks, formats := PositionalChunks(parts);
      r := Ok(Converted(Concat(chunks), formats, None, parts));
    } else {
      var named := NamedChunks(parts);
      if named.Err? { return Err(named.error); }
      r := Ok(Converted(Concat(named.value.0), named.value.1, Some(named.value.2), parts));
    }
  }

  lemma RepeatStep(b: Bytes, n: nat)
    ensures Repeat(b, n + 1) == Repeat(b, n) + [b]
  {
  }

  lemma NamesStep(parts: seq<QueryPart>, part: QueryPart)
    requires part.item.Name? && forall p :: p in parts ==> p.item.Name?
    ensures ItemNames(parts + [part]) == ItemNames(parts) + [part.item.name]
  {
  }

  /** What _query2pg_client_nocache returns. */
  datatype Template = Template(template: Bytes, order: Option<seq<Bytes>>, parts: seq<QueryPart>)

  /** _query2pg_client_nocache: a name that comes back is listed again. */
  method Query2PgClient(q: Bytes) returns (r: Result<Template, Error>)
    ensures Split(q, false).Err? ==> r == Err(Split(q, false).error)
    ensures Split(q, false).Ok? ==> WellFormed(Split(q, false).value)
    ensures Split(q, false).Ok? ==>
              var (template, order) := ForClient(Split(q, false).value);
              r == Ok(Template(template, order, Split(q, false).value))
  {
    var split := SplitQuery(q, false);
    if split.Err? { return Err(split.error); }
    var parts := split.value;
    SplitWellFormed(q, false);
    var n := |parts| - 1;
    var chunks: seq<Bytes>, order: seq<Bytes> := [], [];
    var seen: map<Bytes, Bytes> := map[];
    for i := 0 to n
      invariant Concat(chunks) == Joined(parts[..i], Repeat("%s", i))
      invariant parts[0].item.Name? ==> order == ItemNames(parts[..i])
      invariant forall name :: name in seen ==> seen[name] == "%s"
    {
      assert parts[..i + 1] == parts[..i] + [parts[i]];
      ChunksStep(chunks, parts[..i], Repeat("%s", i), parts[i], "%s");
      RepeatStep("%s", i);
      if parts[0].item.Index? {
        chunks := chunks + [parts[i].pre] + ["%s"];
      } else {
        NamesStep(parts[..i], parts[i]);
        var name := parts[i].item.name;
        chunks := chunks + [parts[i].pre];
        if name !in seen {
          seen := seen[name := "%s"];
          order := order + [name];
          chunks := chunks + ["%s"];
        } else {
          chunks := chunks + [seen[name]];
          order := order + [name];
        }
      }
    }
    ChunksEnd(chunks, parts, Repeat("%s", n));
    chunks := chunks + [parts[n].pre];
    r := Ok(Template(Concat(chunks), if parts[0].item.Index? then None else Some(order), parts));
  }

  /** A query bound on the server: convert() fixes its text, dump() its parameters. */
  class GaussDBQuery {
    var query: Bytes
    var wantFormats: Option<seq<Format>>
    var order: Option<seq<Bytes>>
    var parts: seq<QueryPart>
    var params: Option<seq<Value>>

    constructor ()
    {
      query, wantFormats, order, parts, params := [], None, None, [], None;
    }

    /** The text is the one of query `q`. */
    ghost predicate Holds(q: Bytes)
      reads this
    {
      && Split(q, true) == Ok(parts) && WellFormed(parts) && ForServer(parts).Ok?
      && var s := ForServer(parts).value; query == s.query && wantFormats == Some(s.formats) && order == s.order
    }

    method Convert(q: Bytes, vars: Option<Vars>) returns (r: Result<(), Error>)
      modifies this
      ensures vars.None? ==> r.Ok? && query == q && params.None?
      ensures vars.Some? ==> (r.Ok? <==> ConvertForServer(q, vars.value).Ok?)
      ensures vars.Some? && r.Ok? ==> Holds(q) && params == Some(ConvertForServer(q, vars.value).value.2)
      ensures vars.Some? && r.Err? ==> ConvertForServer(q, vars.value) == Err(r.error)
    {
      if vars.Some? {
        var c := Query2Pg(q);
        if c.Err? { return Err(c.error); }
        query, wantFormats, order, parts := c.value.query, Some(c.value.formats), c.value.order, c.value.parts;
      } else {
        query, wantFormats, order := q, None, None;
      }
      r := Dump(q, vars);
    }

    /** A converted query takes other parameters as if it were converted again with them. */
    method Dump(ghost q: Bytes, vars: Option<Vars>) returns (r: Result<(), Error>)
      requires vars.Some? ==> Holds(q)
      modifies this`params
      ensures vars.None? ==> r.Ok? && params.None?
      ensures vars.Some? ==> (r.Ok? <==> ConvertForServer(q, vars.value).Ok?)
      ensures vars.Some? && r.Ok? ==> params == Some(ConvertForServer(q, vars.value).value.2)
      ensures vars.Some? && r.Err? ==> ConvertForServer(q, vars.value) == Err(r.error)
    {
      if vars.None? {
        params := None;
        return Ok(());
      }
      var values := Reordered(parts, vars.value, order);
      if values.Err? { return Err(values.error); }
      params := Some(values.value);
      r := Ok(());
    }
  }

  /** A query bound on the client: convert() fixes the template, dump() fills it with parameters. */
  class GaussDBClientQuery {
    var template: Bytes
    var order: Option<seq<Bytes>>
    var parts: seq<QueryPart>
    var params: Option<seq<Bytes>>
    var query: Bytes

    constructor ()
    {
      template, order, parts, params, query := [], None, [], None, [];
    }

    /** The template is the one of query `q`. */
    ghost predicate Holds(q: Bytes)
      reads this
    {
      Split(q, false) == Ok(parts) && WellFormed(parts) && (template, order) == ForClient(parts)
    }

    /** With no parameters the query goes as it is, percent signs included. */
    method Convert(q: Bytes, vars: Option<Vars>) returns (r: Result<(), Error>)
      modifies this
      ensures vars.None? ==> r.Ok? && query == q && params.None?
      ensures vars.Some? ==> (r.Ok? <==> ConvertForClient(q, vars.value).Ok?)
      ensures vars.Some? && r.Ok? ==> Holds(q) && ConvertForClient(q, vars.value) == Ok(query)
      ensures vars.Some? && r.Err? ==> ConvertForClient(q, vars.value) == Err(r.error)
    {
      if vars.Some? {
        var t := Query2PgClient(q);
        if t.Err? { return Err(t.error); }
        template, order, parts := t.value.template, t.value.order, t.value.parts;
      } else {
        query, order := q, None;
      }
      r := Dump(q, vars);
    }

    /** A converted query takes other parameters as if it were converted again with them. */
    method Dump(ghost q: Bytes, vars: Option<Vars>) returns (r: Result<(), Error>)
      requires vars.Some? ==> Holds(q)
      modifies this`params, this`query
      ensures vars.None? ==> r.Ok? && params.None? && query == old(query)
      ensures vars.Some? ==> (r.Ok? <==> ConvertForClient(q, vars.value).Ok?)
      ensures vars.Some? && r.Ok? ==> ConvertForClient(q, vars.value) == Ok(query)
      ensures vars.Some? && r.Err? ==> ConvertForClient(q, vars.value) == Err(r.error)
    {
      if vars.None? {
        params := None;
        return Ok(());
      }
      var values := Reordered(parts, vars.value, order);
      if values.Err? { return Err(values.error); }
      params := Some(Literals(values.value));
      var filled := Percented(template, Literals(values.value));
      if filled.Err? { return Err(filled.error); }
      query := filled.value;
      r := Ok(());
    }
  }
}
