/**
 The binary form of arrays: the dimensions, then the elements in row-major order, each after its
 length. The reader takes the elements one by one and groups them level by level. Elements are byte
 strings: the dumper and the loader of the elements are taken as the identity.
 */
module ArrayBinary {
  import opened NestedLists
  import opened Util
  import opened Wire

  /** A nested list, as Python code gives it. */
  type Elem = Nested<Bytes>

  datatype Error = EmptyInside | InconsistentLengths | InconsistentDepths | NotAnElement | TooLong | Malformed

  const MAX_LEN: nat := 0x7fff_ffff

  // ---------- rectangular lists ----------

  /** Lists of the given lengths, level by level, and no list below. */
  ghost predicate Rectangular(e: Elem, dims: seq<nat>)
    decreases dims
  {
    if dims == [] then !e.List?
    else e.List? && |e.es| == dims[0] && forall i :: 0 <= i < |e.es| ==> Rectangular(e.es[i], dims[1..])
  }

  ghost predicate AllRectangular(xs: seq<Elem>, dims: seq<nat>) {
    forall i :: 0 <= i < |xs| ==> Rectangular(xs[i], dims)
  }

  predicate Positive(dims: seq<nat>) { forall i :: 0 <= i < |dims| ==> 0 < dims[i] }

  /** calc_dims: the lengths along the first items. */
  function CalcDims(e: Elem): Result<seq<nat>, Error> {
    if !e.List? then Ok([])
    else if e.es == [] then Err(EmptyInside)
    else
      var rest := CalcDims(e.es[0]);
      if rest.Err? then rest else Ok([|e.es|] + rest.value)
  }

  lemma {:induction false} CalcDimsPositive(e: Elem)
    ensures CalcDims(e).Ok? ==> Positive(CalcDims(e).value) && (e.List? <==> CalcDims(e).value != [])
  {
    if e.List? && e.es != [] {
      CalcDimsPositive(e.es[0]);
    }
  }

  lemma {:induction false} CalcDimsOf(e: Elem, dims: seq<nat>)
    requires Rectangular(e, dims) && Positive(dims)
    ensures CalcDims(e) == Ok(dims)
    decreases dims
  {
    if dims != [] {
      CalcDimsOf(e.es[0], dims[1..]);
      assert dims == [dims[0]] + dims[1..];
    }
  }

  // ---------- the values in row-major order ----------

  /** One element: what the element dumper gives, or NULL. */
  function LeafValue(e: Elem): Result<Elem, Error> {
    match e
    case Null => Ok(Null)
    case Leaf(b) => if |b| <= MAX_LEN then Ok(e) else Err(TooLong)
    case List(_) => Err(NotAnElement)
  }

  function Both(a: Result<seq<Elem>, Error>, b: Result<seq<Elem>, Error>): Result<seq<Elem>, Error> {
    if a.Err? then a else if b.Err? then b else Ok(a.value + b.value)
  }

  /** What dump_list puts out for one list. */
  function Flatten(e: Elem, dims: seq<nat>): Result<seq<Elem>, Error>
    requires e.List? && dims != []
    decreases e, 0
  {
    if |e.es| != dims[0] then Err(InconsistentLengths) else FlattenItems(e.es, dims)
  }

  function FlattenItem(e: Elem, dims: seq<nat>): Result<seq<Elem>, Error>
    requires dims != []
    decreases e, 1
  {
    if |dims| == 1 then
      var v := LeafValue(e);
      if v.Err? then Err(v.error) else Ok([v.value])
    else if !e.List? then Err(InconsistentDepths)
    else Flatten(e, dims[1..])
  }

  function FlattenItems(es: seq<Elem>, dims: seq<nat>): Result<seq<Elem>, Error>
    requires dims != []
    decreases es
  {
    if es == [] then Ok([]) else Both(FlattenItem(es[0], dims), FlattenItems(es[1..], dims))
  }

  /** Every element below fits a length field. */
  predicate Fits(e: Elem) {
    match e
    case Null => true
    case Leaf(b) => |b| <= MAX_LEN
    case List(es) => AllFit(es)
  }

  predicate AllFit(es: seq<Elem>) {
    es != [] ==> Fits(es[0]) && AllFit(es[1..])
  }

  /** What is below the lists of the given depth, from left to right. */
  function Below(xs: seq<Elem>, dims: seq<nat>): seq<Elem>
    decreases |dims|
  {
    if dims == [] then xs else Below(Children(xs), dims[1..])
  }

  /** The items of the lists, one list after the other. */
  function Children(xs: seq<Elem>): seq<Elem> {
    if xs == [] then [] else (if xs[0].List? then xs[0].es else []) + Children(xs[1..])
  }

  lemma {:induction false} ChildrenAppend(a: seq<Elem>, b: seq<Elem>)
    ensures Children(a + b) == Children(a) + Children(b)
  {
    if a == [] {
      assert a + b == b;
    } else {
      assert (a + b)[1..] == a[1..] + b;
      ChildrenAppend(a[1..], b);
    }
  }

  lemma {:induction false} BelowAppend(a: seq<Elem>, b: seq<Elem>, dims: seq<nat>)
    ensures Below(a + b, dims) == Below(a, dims) + Below(b, dims)
    decreases |dims|
  {
    if dims != [] {
      ChildrenAppend(a, b);
      BelowAppend(Children(a), Children(b), dims[1..]);
    }
  }

  lemma {:induction false} BelowNone(dims: seq<nat>)
    ensures Below([], dims) == []
    decreases |dims|
  {
    if dims != [] { BelowNone(dims[1..]); }
  }

  lemma BelowOne(e: Elem, dims: seq<nat>)
    requires e.List? && dims != []
    ensures Below([e], dims) == Below(e.es, dims[1..])
  {
    assert Children([e]) == e.es + Children([]);
    assert e.es + [] == e.es;
  }

  /** Going depth first or level by level gives the same elements; ragged lists are refused. */
  lemma {:induction false} FlattenIs(e: Elem, dims: seq<nat>)
    requires e.List? && dims != []
    ensures Flatten(e, dims).Ok? <==> Rectangular(e, dims) && Fits(e)
    ensures Flatten(e, dims).Ok? ==> Flatten(e, dims) == Ok(Below(e.es, dims[1..]))
    decreases e, 0
  {
    FlattenItemsIs(e, 0, dims);
    assert e.es[0..] == e.es;
  }

  lemma {:induction false} FlattenItemIs(e: Elem, dims: seq<nat>)
    requires dims != []
    ensures FlattenItem(e, dims).Ok? <==> Rectangular(e, dims[1..]) && Fits(e)
    ensures FlattenItem(e, dims).Ok? ==> FlattenItem(e, dims) == Ok(Below([e], dims[1..]))
    decreases e, 1
  {
    if |dims| > 1 && e.List? {
      FlattenIs(e, dims[1..]);
      BelowOne(e, dims[1..]);
    }
  }

  lemma {:induction false} FlattenItemsIs(e: Elem, i: nat, dims: seq<nat>)
    requires e.List? && i <= |e.es| && dims != []
    ensures FlattenItems(e.es[i..], dims).Ok? <==> AllRectangular(e.es[i..], dims[1..]) && AllFit(e.es[i..])
    ensures FlattenItems(e.es[i..], dims).Ok? ==> FlattenItems(e.es[i..], dims) == Ok(Below(e.es[i..], dims[1..]))
    decreases e, 0, |e.es| - i
  {
    var es := e.es[i..];
    if es == [] {
      BelowNone(dims[1..]);
    } else {
      assert es[1..] == e.es[i + 1..];
      FlattenItemIs(es[0], dims);
      FlattenItemsIs(e, i + 1, dims);
      BelowAppend([es[0]], es[1..], dims[1..]);
      assert [es[0]] + es[1..] == es;
      AllRectangularSplit(es, dims[1..]);
    }
  }

  lemma AllRectangularSplit(xs: seq<Elem>, dims: seq<nat>)
    requires xs != []
    ensures AllRectangular(xs, dims) <==> Rectangular(xs[0], dims) && AllRectangular(xs[1..], dims)
  {
    if AllRectangular(xs[1..], dims) {
      assert forall i :: 1 <= i < |xs| ==> xs[i] == xs[1..][i - 1];
    }
  }

  // ---------- grouping ----------

  /** The items in groups of `dim`. */
  function Chunks(xs: seq<Elem>, dim: nat): seq<Elem>
    requires 0 < dim
    decreases |xs|
  {
    if xs == [] then []
    else if |xs| <= dim then [List(xs)]
    else [List(xs[..dim])] + Chunks(xs[dim..], dim)
  }

  /** The groups that the lengths make, the last length first. */
  function Regrouped(leaves: seq<Elem>, dims: seq<nat>): seq<Elem>
    requires Positive(dims)
    decreases |dims|
  {
    if dims == [] then leaves else Chunks(Regrouped(leaves, dims[1..]), dims[0])
  }

  lemma {:induction false} ChunksOfChildren(xs: seq<Elem>, dims: seq<nat>)
    requires dims != [] && 0 < dims[0] && AllRectangular(xs, dims)
    ensures Chunks(Children(xs), dims[0]) == xs
  {
    if xs != [] {
      AllRectangularSplit(xs, dims);
      var first, rest := xs[0].es, Children(xs[1..]);
      ChunksOfChildren(xs[1..], dims);
      assert (first + rest)[..dims[0]] == first && (first + rest)[dims[0]..] == rest;
      assert xs == [xs[0]] + xs[1..];
      if rest == [] {
        assert Children(xs) == first;
      }
    }
  }

  lemma {:induction false} ChildrenRectangular(xs: seq<Elem>, dims: seq<nat>)
    requires dims != [] && AllRectangular(xs, dims)
    ensures AllRectangular(Children(xs), dims[1..])
    ensures |Children(xs)| == |xs| * dims[0]
  {
    if xs != [] {
      AllRectangularSplit(xs, dims);
      ChildrenRectangular(xs[1..], dims);
    }
  }

  /** Grouping undoes flattening. */
  lemma {:induction false} RegroupedBelow(xs: seq<Elem>, dims: seq<nat>)
    requires Positive(dims) && AllRectangular(xs, dims)
    ensures Regrouped(Below(xs, dims), dims) == xs
    decreases |dims|
  {
    if dims != [] {
      ChildrenRectangular(xs, dims);
      RegroupedBelow(Children(xs), dims[1..]);
      ChunksOfChildren(xs, dims);
    }
  }

  function Product(dims: seq<nat>): nat {
    if dims == [] then 1 else dims[0] * Product(dims[1..])
  }

  lemma {:induction false} BelowLength(xs: seq<Elem>, dims: seq<nat>)
    requires AllRectangular(xs, dims)
    ensures |Below(xs, dims)| == |xs| * Product(dims)
    ensures AllRectangular(Below(xs, dims), [])
    decreases |dims|
  {
    if dims != [] {
      ChildrenRectangular(xs, dims);
      BelowLength(Children(xs), dims[1..]);
      assert |xs| * dims[0] * Product(dims[1..]) == |xs| * (dims[0] * Product(dims[1..]));
    }
  }

  // ---------- bytes ----------

  function Element(e: Elem): Bytes
    requires !e.List? && Fits(e)
  {
    if e.Null? then Signed4(-1) else Signed4(|e.b|) + e.b
  }

  predicate Flat(xs: seq<Elem>) {
    xs != [] ==> !xs[0].List? && Fits(xs[0]) && Flat(xs[1..])
  }

  function Elements(xs: seq<Elem>): Bytes
    requires Flat(xs)
  {
    if xs == [] then [] else Element(xs[0]) + Elements(xs[1..])
  }

  function Dimensions(dims: seq<nat>): (r: Bytes)
    requires forall i :: 0 <= i < |dims| ==> dims[i] < LIMIT4
    ensures |r| == 8 * |dims|
  {
    if dims == [] then [] else Unsigned4(dims[0]) + Unsigned4(1) + Dimensions(dims[1..])
  }

  function HasNull(xs: seq<Elem>): nat { if Null in xs then 1 else 0 }

  function Header(ndims: nat, hasnull: nat, oid: nat): (r: Bytes)
    requires ndims < LIMIT4 && hasnull < LIMIT4 && oid < LIMIT4
    ensures |r| == 12
  {
    Unsigned4(ndims) + Unsigned4(hasnull) + Unsigned4(oid)
  }

  predicate DimsFit(dims: seq<nat>) {
    |dims| < LIMIT4 && forall i :: 0 <= i < |dims| ==> dims[i] < LIMIT4
  }

  lemma {:induction false} FlatIs(xs: seq<Elem>)
    ensures Flat(xs) <==> AllRectangular(xs, []) && AllFit(xs)
  {
    if xs != [] {
      FlatIs(xs[1..]);
      AllRectangularSplit(xs, []);
    }
  }

  lemma {:induction false} ItemsFlat(es: seq<Elem>, dims: seq<nat>)
    requires dims != []
    ensures FlattenItems(es, dims).Ok? ==> Flat(FlattenItems(es, dims).value)
    decreases es, 0
  {
    if es != [] && FlattenItems(es, dims).Ok? {
      ItemFlat(es[0], dims);
      ItemsFlat(es[1..], dims);
      FlatAppend(FlattenItem(es[0], dims).value, FlattenItems(es[1..], dims).value);
    }
  }

  lemma {:induction false} ItemFlat(e: Elem, dims: seq<nat>)
    requires dims != []
    ensures FlattenItem(e, dims).Ok? ==> Flat(FlattenItem(e, dims).value)
    decreases e, 1
  {
    if |dims| > 1 && e.List? { ItemsFlat(e.es, dims[1..]); }
  }

  lemma {:induction false} FlatAppend(a: seq<Elem>, b: seq<Elem>)
    requires Flat(a) && Flat(b)
    ensures Flat(a + b)
    ensures Elements(a + b) == Elements(a) + Elements(b)
  {
    if a == [] {
      assert a + b == b;
    } else {
      assert (a + b)[1..] == a[1..] + b;
      FlatAppend(a[1..], b);
    }
  }

  /** dump */
  function Dump(es: seq<Elem>, oid: nat): Result<Bytes, Error>
    requires oid < LIMIT4
  {
    if es == [] then Ok(Header(0, 0, oid)) else
    var dims := CalcDims(List(es));
    if dims.Err? then Err(dims.error) else
    CalcDimsPositive(List(es));
    var values := Flatten(List(es), dims.value);
    if values.Err? then Err(values.error)
    else if !DimsFit(dims.value) then Err(TooLong)
    else
      ItemsFlat(es, dims.value);
      Ok(Header(|dims.value|, HasNull(values.value), oid) + Dimensions(dims.value) + Elements(values.value))
  }

  // ---------- reading ----------

  /** The dimensions, from the start of `data`. */
  function ReadDims(data: Bytes, n: nat): (r: Result<seq<nat>, Error>)
    ensures r.Ok? ==> |r.value| == n && 8 * n <= |data|
  {
    if n == 0 then Ok([])
    else if |data| < 8 then Err(Malformed)
    else
      var rest := ReadDims(data[8..], n - 1);
      if rest.Err? then rest else Ok([Num(data[..4])] + rest.value)
  }

  /** The next n elements. */
  function ReadElements(data: Bytes, n: nat): (r: Result<seq<Elem>, Error>)
    ensures r.Ok? ==> |r.value| == n
  {
    if n == 0 then Ok([])
    else if |data| < 4 then Err(Malformed)
    else
      var size := ToSigned4(data[..4]);
      if size < -1 then Err(Malformed) else
      var rest := data[4..];
      var len := if size == -1 then 0 else Min(size, |rest|);
      var more := ReadElements(rest[len..], n - 1);
      if more.Err? then more else Ok([if size == -1 then Null else Leaf(rest[..len])] + more.value)
  }

  /** What follows the header: the dimensions, the elements, and the grouping of the elements. */
  function LoadBody(body: Bytes, ndims: nat): Result<seq<Elem>, Error>
    requires 0 < ndims
  {
    var dims := ReadDims(body, ndims);
    if dims.Err? then Err(dims.error) else
    var out := ReadElements(body[8 * ndims..], Product(dims.value));
    if out.Err? then Err(out.error)
    else if !Positive(dims.value[1..]) then Err(Malformed)
    else Ok(Regrouped(out.value, dims.value[1..]))
  }

  /** _load_binary */
  function Load(data: Bytes): Result<seq<Elem>, Error> {
    if |data| < 12 then Err(Malformed) else
    var ndims := Num(data[..4]);
    if ndims == 0 then Ok([]) else LoadBody(data[12..], ndims)
  }

  lemma ReadDim(dim: nat, rest: Bytes, n: nat)
    requires dim < LIMIT4
    ensures var more := ReadDims(rest, n);
            ReadDims(Unsigned4(dim) + Unsigned4(1) + rest, n + 1) == if more.Err? then more else Ok([dim] + more.value)
  {
    var data := Unsigned4(dim) + Unsigned4(1) + rest;
    assert data[..4] == Unsigned4(dim) && data[8..] == rest;
  }

  lemma {:induction false} ReadDimsOf(dims: seq<nat>, rest: Bytes)
    requires forall i :: 0 <= i < |dims| ==> dims[i] < LIMIT4
    ensures ReadDims(Dimensions(dims) + rest, |dims|) == Ok(dims)
  {
    if dims != [] {
      ReadDimsOf(dims[1..], rest);
      ReadDim(dims[0], Dimensions(dims[1..]) + rest, |dims| - 1);
      Regroup(Unsigned4(dims[0]) + Unsigned4(1), Dimensions(dims[1..]), rest, []);
      assert dims == [dims[0]] + dims[1..];
    }
  }

  /** One element is read, and the rest as it was. */
  lemma ReadElement(x: Elem, rest: Bytes, n: nat, xs: seq<Elem>)
    requires !x.List? && Fits(x) && ReadElements(rest, n) == Ok(xs)
    ensures ReadElements(Element(x) + rest, n + 1) == Ok([x] + xs)
  {
    var data := Element(x) + rest;
    if x.Null? {
      assert data[..4] == Signed4(-1) && data[4..] == rest;
      assert rest[0..] == rest;
    } else {
      assert data[..4] == Signed4(|x.b|) && data[4..] == x.b + rest;
      assert (x.b + rest)[..|x.b|] == x.b && (x.b + rest)[|x.b|..] == rest;
    }
  }

  lemma {:induction false} ReadElementsOf(xs: seq<Elem>)
    requires Flat(xs)
    ensures ReadElements(Elements(xs), |xs|) == Ok(xs)
  {
    if xs != [] {
      ReadElementsOf(xs[1..]);
      ReadElement(xs[0], Elements(xs[1..]), |xs| - 1, xs[1..]);
      assert xs == [xs[0]] + xs[1..];
    }
  }

  lemma LoadBodyOf(dims: seq<nat>, tail: Bytes)
    requires dims != [] && DimsFit(dims) && Positive(dims)
    ensures var out := ReadElements(tail, Product(dims));
            LoadBody(Dimensions(dims) + tail, |dims|) ==
              if out.Err? then Err(out.error) else Ok(Regrouped(out.value, dims[1..]))
  {
    assert (Dimensions(dims) + tail)[8 * |dims|..] == tail;
    ReadDimsOf(dims, tail);
  }

  lemma LoadHeader(ndims: nat, hasnull: nat, oid: nat, body: Bytes)
    requires 0 < ndims < LIMIT4 && hasnull < LIMIT4 && oid < LIMIT4
    ensures Load(Header(ndims, hasnull, oid) + body) == LoadBody(body, ndims)
  {
    var data := Header(ndims, hasnull, oid) + body;
    assert data[..4] == Unsigned4(ndims) && data[12..] == body;
  }

  lemma LoadParts(dims: seq<nat>, hasnull: nat, oid: nat, tail: Bytes)
    requires dims != [] && DimsFit(dims) && Positive(dims) && hasnull < LIMIT4 && oid < LIMIT4
    ensures var out := ReadElements(tail, Product(dims));
            Load(Header(|dims|, hasnull, oid) + Dimensions(dims) + tail) ==
              if out.Err? then Err(out.error) else Ok(Regrouped(out.value, dims[1..]))
  {
    LoadHeader(|dims|, hasnull, oid, Dimensions(dims) + tail);
    LoadBodyOf(dims, tail);
    Regroup(Header(|dims|, hasnull, oid), Dimensions(dims), tail, []);
  }

  // ---------- main results ----------

  lemma DumpParts(es: seq<Elem>, oid: nat)
    requires oid < LIMIT4 && es != [] && Dump(es, oid).Ok?
    ensures var e := List(es);
            && CalcDims(e).Ok?
            && var dims := CalcDims(e).value;
            && dims != [] && Positive(dims) && DimsFit(dims) && Rectangular(e, dims)
            && var xs := Below(es, dims[1..]);
            && Flat(xs) && |xs| == Product(dims)
            && Dump(es, oid) == Ok(Header(|dims|, HasNull(xs), oid) + Dimensions(dims) + Elements(xs))
  {
    var e := List(es);
    CalcDimsPositive(e);
    var dims := CalcDims(e).value;
    FlattenIs(e, dims);
    ItemsFlat(es, dims);
    BelowLength(es, dims[1..]);
  }

  /** Every list that can be dumped is read back as it was, whatever its depth and its NULLs. */
  lemma RoundTrip(es: seq<Elem>, oid: nat)
    requires oid < LIMIT4 && Dump(es, oid).Ok?
    ensures Load(Dump(es, oid).value) == Ok(es)
  {
    var data := Dump(es, oid).value;
    if es == [] {
      assert data[..4] == Unsigned4(0);
    } else {
      DumpParts(es, oid);
      var dims := CalcDims(List(es)).value;
      var xs := Below(es, dims[1..]);
      ReadElementsOf(xs);
      LoadParts(dims, HasNull(xs), oid, Elements(xs));
      RegroupedBelow(es, dims[1..]);
    }
  }

  /** Exactly the rectangular lists with no empty level are dumped, as long as the lengths fit their fields. */
  lemma DumpsIff(es: seq<Elem>, oid: nat)
    requires oid < LIMIT4 && es != []
    ensures Dump(es, oid).Ok? <==>
              Fits(List(es)) && exists dims :: dims != [] && Positive(dims) && DimsFit(dims) && Rectangular(List(es), dims)
  {
    var e := List(es);
    CalcDimsPositive(e);
    if Dump(es, oid).Ok? {
      FlattenIs(e, CalcDims(e).value);
    }
    if exists dims :: dims != [] && Positive(dims) && DimsFit(dims) && Rectangular(e, dims) {
      var dims :| dims != [] && Positive(dims) && DimsFit(dims) && Rectangular(e, dims);
      CalcDimsOf(e, dims);
      FlattenIs(e, dims);
    }
  }

  // ---------- the layout ----------

  lemma HeaderFields(ndims: nat, hasnull: nat, oid: nat, rest: Bytes)
    requires ndims < LIMIT4 && hasnull < LIMIT4 && oid < LIMIT4
    ensures var d := Header(ndims, hasnull, oid) + rest;
            Num(d[..4]) == ndims && Num(d[4..8]) == hasnull && Num(d[8..12]) == oid && d[12..] == rest
  {
    var d := Header(ndims, hasnull, oid) + rest;
    assert d[..4] == Unsigned4(ndims);
    assert d[4..8] == Unsigned4(hasnull);
    assert d[8..12] == Unsigned4(oid);
  }

  /** The i-th dimension in the bytes `d`: its length, and the lower bound 1. */
  ghost predicate LengthAt(d: Bytes, i: nat, length: nat) {
    8 * i + 8 <= |d| && Num(d[8 * i..8 * i + 4]) == length && Num(d[8 * i + 4..8 * i + 8]) == 1
  }

  lemma LengthFirst(length: nat, more: Bytes)
    requires length < LIMIT4
    ensures LengthAt(Unsigned4(length) + Unsigned4(1) + more, 0, length)
  {
    var d := Unsigned4(length) + Unsigned4(1) + more;
    assert d[0..4] == Unsigned4(length);
    assert d[4..8] == Unsigned4(1);
  }

  lemma LengthLater(front: Bytes, more: Bytes, i: nat, length: nat)
    requires |front| == 8 && LengthAt(more, i, length)
    ensures LengthAt(front + more, i + 1, length)
  {
    var d, j := front + more, 8 * i;
    assert d[j + 8..j + 12] == more[j..j + 4];
    assert d[j + 12..j + 16] == more[j + 4..j + 8];
  }

  lemma {:induction false} DimensionAt(dims: seq<nat>, rest: Bytes, i: nat)
    requires i < |dims| && forall i :: 0 <= i < |dims| ==> dims[i] < LIMIT4
    ensures LengthAt(Dimensions(dims) + rest, i, dims[i])
    decreases i
  {
    var front, more := Unsigned4(dims[0]) + Unsigned4(1), Dimensions(dims[1..]) + rest;
    assert Dimensions(dims) + rest == front + more;
    if i == 0 {
      LengthFirst(dims[0], more);
    } else {
      DimensionAt(dims[1..], rest, i - 1);
      LengthLater(front, more, i - 1, dims[i]);
    }
  }

  /** How many dimensions, whether there are NULLs, the type; then the length and the lower bound of each dimension. */
  lemma DumpLayout(es: seq<Elem>, oid: nat, dims: seq<nat>)
    requires oid < LIMIT4 && Dump(es, oid).Ok? && es != []
    requires dims != [] && Rectangular(List(es), dims) && Positive(dims)
    ensures var d := Dump(es, oid).value;
            && |d| >= 12 + 8 * |dims|
            && Num(d[..4]) == |dims| && Num(d[8..12]) == oid
            && Num(d[4..8]) == (if Null in Below(es, dims[1..]) then 1 else 0)
            && forall i :: 0 <= i < |dims| ==> LengthAt(d[12..], i, dims[i])
  {
    CalcDimsOf(List(es), dims);
    FlattenIs(List(es), dims);
    ItemsFlat(es, dims);
    var values := Below(es, dims[1..]);
    var rest := Dimensions(dims) + Elements(values);
    var header := Header(|dims|, HasNull(values), oid);
    assert Dump(es, oid).value == header + Dimensions(dims) + Elements(values);
    Regroup(header, Dimensions(dims), Elements(values), []);
    HeaderFields(|dims|, HasNull(values), oid, rest);
    forall i | 0 <= i < |dims|
      ensures LengthAt(rest, i, dims[i])
    {
      DimensionAt(dims, Elements(values), i);
    }
  }

  /** The empty list has a header only. */
  lemma EmptyLayout(oid: nat)
    requires oid < LIMIT4
    ensures var d := Dump([], oid);
            d.Ok? && |d.value| == 12 && Num(d.value[..4]) == 0 && Num(d.value[4..8]) == 0 && Num(d.value[8..12]) == oid
  {
    HeaderFields(0, 0, oid, []);
    assert Header(0, 0, oid) + [] == Header(0, 0, oid);
  }

  // ---------- what is refused ----------

  /** An element fits if its length can be stored in four bytes with a sign. */
  lemma LeafFitsIff(b: Bytes)
    ensures Fits(Leaf(b)) <==> |b| < 0x8000_0000
  {
  }

  /** What is wrong with an item: of the elements one that is a list or too long, above them one that is no list or of another length. */
  lemma ItemErrors(e: Elem, dims: seq<nat>)
    requires dims != []
    ensures |dims| == 1 && e.List? ==> FlattenItem(e, dims) == Err(NotAnElement)
    ensures |dims| == 1 && e.Leaf? && |e.b| >= 0x8000_0000 ==> FlattenItem(e, dims) == Err(TooLong)
    ensures |dims| > 1 && !e.List? ==> FlattenItem(e, dims) == Err(InconsistentDepths)
    ensures |dims| > 1 && e.List? && |e.es| != dims[1] ==> FlattenItem(e, dims) == Err(InconsistentLengths)
  {
  }

  /** The first item that fails decides. */
  lemma {:induction false} FirstItemDecides(es: seq<Elem>, dims: seq<nat>, k: nat)
    requires dims != [] && k < |es| && FlattenItem(es[k], dims).Err?
    requires forall j :: 0 <= j < k ==> FlattenItem(es[j], dims).Ok?
    ensures FlattenItems(es, dims) == Err(FlattenItem(es[k], dims).error)
    decreases k
  {
    if k > 0 {
      assert forall j :: 0 <= j < k - 1 ==> es[1..][j] == es[j + 1];
      FirstItemDecides(es[1..], dims, k - 1);
    }
  }

  /** The dimensions cannot be told exactly if an empty list comes first in the lists that hold it. */
  lemma {:induction false} DimsFailIff(e: Elem)
    ensures CalcDims(e).Err? ==> CalcDims(e).error == EmptyInside
    ensures e.List? ==> (CalcDims(e).Err? <==> e.es == [] || CalcDims(e.es[0]).Err?)
  {
    if e.List? && e.es != [] { DimsFailIff(e.es[0]); }
  }

  /** Data that is cut short, or has a negative length other than that of a NULL, is refused. */
  lemma MalformedRefused(data: Bytes, n: nat)
    ensures |data| < 12 ==> Load(data) == Err(Malformed)
    ensures n > 0 && (|data| < 4 || ToSigned4(data[..4]) < -1) ==> ReadElements(data, n) == Err(Malformed)
    ensures n > 0 && |data| < 8 ==> ReadDims(data, n) == Err(Malformed)
  {
  }

  /** A list with a dimension, or a number of dimensions, that four bytes cannot hold is refused as too long. */
  lemma TooLongRefused(es: seq<Elem>, oid: nat, dims: seq<nat>)
    requires oid < LIMIT4 && es != [] && Rectangular(List(es), dims) && Positive(dims) && dims != [] && AllFit(es)
    requires |dims| >= 0x1_0000_0000 || exists i :: 0 <= i < |dims| && dims[i] >= 0x1_0000_0000
    ensures Dump(es, oid) == Err(TooLong)
  {
    CalcDimsOf(List(es), dims);
    FlattenIs(List(es), dims);
  }

  /** A dimension of no length below the first is refused, if the data holds the elements. */
  lemma EmptyDimensionRefused(body: Bytes, ndims: nat, dims: seq<nat>, i: nat)
    requires ndims > 0 && ReadDims(body, ndims) == Ok(dims) && ReadElements(body[8 * ndims..], Product(dims)).Ok?
    requires 0 < i < |dims| && dims[i] == 0
    ensures LoadBody(body, ndims) == Err(Malformed)
  {
    assert dims[1..][i - 1] == 0;
  }
}
