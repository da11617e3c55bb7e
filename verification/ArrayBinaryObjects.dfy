/**
 The imperative side of binary arrays: the nested functions of the dumper, which append to a list of
 chunks that they share and note NULLs, and the loops of the loader, which fill the list of elements
 in place and then group it, one dimension after the other.
 */
module ArrayBinaryObjects {
  import opened NestedLists
  import opened Util
  import opened Wire
  import opened ArrayBinary

  class ListBinaryDumper {
    const dims: seq<nat>
    var data: seq<Bytes>
    var hasnull: nat

    constructor (dims: seq<nat>)
      ensures this.dims == dims && data == [[], []] && hasnull == 0
    {
      this.dims := dims;
      data := [[], []];
      hasnull := 0;
    }

    /** dump_list: the elements below the list go to `data`, in row-major order. */
    method DumpList(L: Elem, dim: nat) returns (r: Result<(), Error>, ghost added: seq<Bytes>)
      requires L.List? && dim < |dims|
      modifies this
      ensures var values := Flatten(L, dims[dim..]);
              if values.Err? then r == Err(values.error)
              else r.Ok? && Flat(values.value) && data == old(data) + added && Concat(added) == Elements(values.value)
                   && hasnull == if Null in values.value then 1 else old(hasnull)
      decreases L, 0
    {
      added := [];
      if |L.es| != dims[dim] { return Err(InconsistentLengths), added; }
      ghost var values: seq<Elem> := [];
      var es := L.es;
      ghost var all := FlattenItems(es, dims[dim..]);
      assert es[0..] == es;
      BothNone(all);
      for i := 0 to |es|
        invariant all == Both(Ok(values), FlattenItems(es[i..], dims[dim..]))
        invariant Flat(values) && data == old(data) + added && Concat(added) == Elements(values)
        invariant hasnull == if Null in values then 1 else old(hasnull)
      {
        FlattenMore(es, i, dims[dim..], values);
        r, added := DumpNext(es[i], dim, values, added, old(data), old(hasnull));
        if r.Err? { return r, added; }
        values := values + FlattenItem(es[i], dims[dim..]).value;
      }
      assert Both(Ok(values), Ok([])) == Ok(values) by { assert values + [] == values; }
      r := Ok(());
    }

    /** One turn of the loop: `values` are the elements so far, `added` their chunks. */
    method DumpNext(item: Elem, dim: nat, ghost values: seq<Elem>, ghost added: seq<Bytes>, ghost before: seq<Bytes>, ghost nulls: nat)
      returns (r: Result<(), Error>, ghost chunks: seq<Bytes>)
      requires dim < |dims| && Flat(values) && data == before + added && Concat(added) == Elements(values)
      requires hasnull == if Null in values then 1 else nulls
      modifies this
      ensures var more := FlattenItem(item, dims[dim..]);
              if more.Err? then r == Err(more.error)
              else r.Ok? && Flat(values + more.value) && data == before + chunks
                   && Concat(chunks) == Elements(values + more.value)
                   && hasnull == if Null in values + more.value then 1 else nulls
      decreases item, 2
    {
      ghost var more;
      r, more := DumpItem(item, dim);
      chunks := added + more;
      if r.Ok? {
        FlatAppend(values, FlattenItem(item, dims[dim..]).value);
        ConcatAppend(added, more);
        Regroup(before, added, more, []);
      }
    }

    method DumpItem(item: Elem, dim: nat) returns (r: Result<(), Error>, ghost added: seq<Bytes>)
      requires dim < |dims|
      modifies this
      ensures var values := FlattenItem(item, dims[dim..]);
              if values.Err? then r == Err(values.error)
              else r.Ok? && Flat(values.value) && data == old(data) + added && Concat(added) == Elements(values.value)
                   && hasnull == if Null in values.value then 1 else old(hasnull)
      decreases item, 1
    {
      added := [];
      if dim == |dims| - 1 {
        if item.List? { return Err(NotAnElement), added; }
        if item.Leaf? && |item.b| > MAX_LEN { return Err(TooLong), added; }
        ElementChunks(item);
        if item.Leaf? {
          added := [Signed4(|item.b|), item.b];
          data := data + [Signed4(|item.b|)] + [item.b];
        } else {
          hasnull := 1;
          added := [Signed4(-1)];
          data := data + [Signed4(-1)];
        }
        r := Ok(());
      } else {
        if !item.List? { return Err(InconsistentDepths), added; }
        assert dims[dim..][1..] == dims[dim + 1..];
        r, added := DumpList(item, dim + 1);
      }
    }
  }

  lemma BothNone(r: Result<seq<Elem>, Error>)
    ensures Both(Ok([]), r) == r
  {
    if r.Ok? { assert [] + r.value == r.value; }
  }

  lemma ElementChunks(x: Elem)
    requires !x.List? && Fits(x)
    ensures Flat([x])
    ensures Elements([x]) == Concat(if x.Null? then [Signed4(-1)] else [Signed4(|x.b|), x.b])
  {
    assert Elements([x]) == Element(x) + Elements([]);
    if x.Leaf? {
      var chunks := [Signed4(|x.b|), x.b];
      assert chunks[1..] == [x.b] && [x.b][1..] == [];
      assert Concat([x.b]) == x.b + Concat([]);
    }
  }

  lemma FlattenMore(es: seq<Elem>, i: nat, dims: seq<nat>, values: seq<Elem>)
    requires i < |es| && dims != []
    ensures var item := FlattenItem(es[i], dims);
            Both(Ok(values), FlattenItems(es[i..], dims)) ==
              if item.Err? then item else Both(Ok(values + item.value), FlattenItems(es[i + 1..], dims))
  {
    assert es[i..][1..] == es[i + 1..];
    var item, rest := FlattenItem(es[i], dims), FlattenItems(es[i + 1..], dims);
    if item.Ok? && rest.Ok? {
      Regroup(values, item.value, rest.value, []);
    }
  }

  lemma ConcatTwo(a: Bytes, b: Bytes, rest: seq<Bytes>)
    ensures Concat([a, b] + rest) == a + b + Concat(rest)
  {
    assert ([a, b] + rest)[1..] == [b] + rest;
    assert ([b] + rest)[1..] == rest;
    Regroup(a, b, Concat(rest), []);
  }

  /** dump: the header takes the places kept for it. */
  method DumpArray(es: seq<Elem>, oid: nat) returns (r: Result<Bytes, Error>)
    requires oid < LIMIT4
    ensures r == Dump(es, oid)
  {
    if es == [] { return Ok(Header(0, 0, oid)); }
    var dims := CalcDims(List(es));
    if dims.Err? { return Err(dims.error); }
    CalcDimsPositive(List(es));
    var d := new ListBinaryDumper(dims.value);
    assert dims.value[0..] == dims.value;
    var done, added := d.DumpList(List(es), 0);
    if done.Err? { return Err(done.error); }
    if !DimsFit(dims.value) { return Err(TooLong); }
    var data := d.data[0 := Header(|dims.value|, d.hasnull, oid)][1 := Dimensions(dims.value)];
    assert data == [Header(|dims.value|, d.hasnull, oid), Dimensions(dims.value)] + added;
    ConcatTwo(Header(|dims.value|, d.hasnull, oid), Dimensions(dims.value), added);
    r := Ok(Concat(data));
  }

  /** Reading one element, or an error. */
  lemma ReadElementsStep(data: Bytes, n: nat, before: seq<Elem>)
    requires 0 < n && 4 <= |data|
    ensures var size := ToSigned4(data[..4]);
            var rest := data[4..];
            var len := if size == -1 then 0 else Min(size, |rest|);
            -1 <= size ==>
              Both(Ok(before), ReadElements(data, n))
              == Both(Ok(before + [if size == -1 then Null else Leaf(rest[..len])]), ReadElements(rest[len..], n - 1))
  {
    var size := ToSigned4(data[..4]);
    if -1 <= size {
      var rest := data[4..];
      var len := if size == -1 then 0 else Min(size, |rest|);
      var x := if size == -1 then Null else Leaf(rest[..len]);
      var more := ReadElements(rest[len..], n - 1);
      if more.Ok? { assert before + ([x] + more.value) == before + [x] + more.value; }
    }
  }

  /** One turn of the loop: the next element, and what follows it. */
  method ReadOne(data: Bytes, ghost n: nat, ghost before: seq<Elem>) returns (r: Result<(Elem, Bytes), Error>)
    requires 0 < n
    ensures r.Err? ==> ReadElements(data, n) == Err(r.error)
    ensures r.Ok? ==> Both(Ok(before), ReadElements(data, n))
                      == Both(Ok(before + [r.value.0]), ReadElements(r.value.1, n - 1))
  {
    if |data| < 4 { return Err(Malformed); }
    var size, rest := ToSigned4(data[..4]), data[4..];
    if size < -1 { return Err(Malformed); }
    ReadElementsStep(data, n, before);
    if size == -1 {
      r := Ok((Null, rest));
      assert rest[0..] == rest;
    } else {
      var len := Min(size, |rest|);
      r := Ok((Leaf(rest[..len]), rest[len..]));
    }
  }

  /** The loop over the elements: `out` starts full of NULLs and is filled in place. */
  method ReadAll(data: Bytes, nelems: nat) returns (r: Result<seq<Elem>, Error>)
    ensures r == ReadElements(data, nelems)
  {
    var out := seq(nelems, _ => Null);
    var rest := data;
    BothNone(ReadElements(data, nelems));
    for i := 0 to nelems
      invariant |out| == nelems && forall j :: i <= j < nelems ==> out[j] == Null
      invariant ReadElements(data, nelems) == Both(Ok(out[..i]), ReadElements(rest, nelems - i))
    {
      var one := ReadOne(rest, nelems - i, out[..i]);
      if one.Err? { return Err(one.error); }
      ghost var before := out[..i];
      if !one.value.0.Null? { out := out[i := one.value.0]; }
      rest := one.value.1;
      assert out[..i + 1] == before + [one.value.0];
    }
    assert out[..nelems] == out;
    assert out + [] == out;
    r := Ok(out);
  }

  lemma ChunksFrom(xs: seq<Elem>, i: nat, dim: nat)
    requires 0 < dim && i < |xs|
    ensures var j := Min(i + dim, |xs|);
            Chunks(xs[i..], dim) == [List(xs[i..j])] + Chunks(xs[j..], dim)
  {
    var j := Min(i + dim, |xs|);
    if i + dim < |xs| {
      assert xs[i..][..dim] == xs[i..j] && xs[i..][dim..] == xs[j..];
    } else {
      assert xs[i..] == xs[i..j];
    }
  }

  /** The list of items cut into slices of `dim`. */
  method Slice(xs: seq<Elem>, dim: nat) returns (groups: seq<Elem>)
    requires 0 < dim
    ensures groups == Chunks(xs, dim)
  {
    groups := [];
    var i := 0;
    assert xs[0..] == xs;
    while i < |xs|
      invariant i <= |xs|
      invariant Chunks(xs, dim) == groups + Chunks(xs[i..], dim)
    {
      var j := Min(i + dim, |xs|);
      ChunksFrom(xs, i, dim);
      Regroup(groups, [List(xs[i..j])], Chunks(xs[j..], dim), []);
      groups := groups + [List(xs[i..j])];
      i := j;
    }
  }

  /** The loop that groups the items, from the last dimension down to the second. */
  method GroupAll(leaves: seq<Elem>, dims: seq<nat>) returns (r: Result<seq<Elem>, Error>)
    requires dims != []
    ensures r == if Positive(dims[1..]) then Ok(Regrouped(leaves, dims[1..])) else Err(Malformed)
  {
    var out := leaves;
    var i := |dims|;
    while i > 1
      invariant 1 <= i <= |dims|
      invariant Positive(dims[i..]) && out == Regrouped(leaves, dims[i..])
    {
      i := i - 1;
      if dims[i] == 0 {
        assert dims[1..][i - 1] == 0;
        return Err(Malformed);
      }
      assert dims[i..][1..] == dims[i + 1..] && dims[i..] == [dims[i]] + dims[i + 1..];
      out := Slice(out, dims[i]);
    }
    r := Ok(out);
  }

  method LoadBinary(data: Bytes) returns (r: Result<seq<Elem>, Error>)
    ensures r == Load(data)
  {
    if |data| < 12 { return Err(Malformed); }
    var ndims := Num(data[..4]);
    if ndims == 0 { return Ok([]); }
    var dims := ReadDims(data[12..], ndims);
    if dims.Err? { return Err(dims.error); }
    var out := ReadAll(data[12..][8 * ndims..], Product(dims.value));
    if out.Err? { return Err(out.error); }
    r := GroupAll(out.value, dims.value);
  }
}
