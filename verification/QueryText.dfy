/** The text of queries: what is read from it, what is refused, and what is sent. */
module QueryText {
  import opened Util
  import opened Queries

  // ---------- the parts spell the query ----------

  /** The letter that asks for a format. */
  function Letter(f: Format): char { match f case AUTO => 's' case TEXT => 't' case BINARY => 'b' }

  /** A placeholder as one writes it. */
  function Spelling(part: QueryPart): Bytes {
    match part.item
    case Index(_) => ['%', Letter(part.format)]
    case Name(name) => "%(" + name + ")" + [Letter(part.format)]
  }

  function Spellings(parts: seq<QueryPart>): (r: seq<Bytes>)
    ensures |r| == |parts|
  {
    if parts == [] then [] else [Spelling(parts[0])] + Spellings(parts[1..])
  }

  /** A match is two chars, or has a name in parentheses. */
  ghost predicate Shaped(m: Match) {
    && |m.text| >= 2
    && match m.name
       case None => |m.text| == 2 && m.text[0] == '%'
       case Some(name) => m.text == "%(" + name + ")" + [m.text[|m.text| - 1]]
  }

  lemma MatchShaped(q: Bytes)
    requires MatchAt(q).Some?
    ensures Shaped(MatchAt(q).value)
  {
    var m := MatchAt(q).value;
    if m.name.Some? {
      var j := CloseParen(q, 2);
      assert m.text == q[..j + 2] && q[..j + 2] == "%(" + q[2..j] + ")" + [q[j + 1]];
    }
  }

  /** A percent sign, a name in parentheses and any char but a newline are one match. */
  lemma NameMatches(q: Bytes, name: Bytes, x: char)
    requires name != [] && ')' !in name && x != '\n' && "%(" + name + ")" + [x] <= q
    ensures MatchAt(q) == Some(Match("%(" + name + ")" + [x], Some(name)))
  {
    var t := "%(" + name + ")" + [x];
    assert q[..|t|] == t;
    assert forall i :: 2 <= i < 2 + |name| ==> q[i] == t[i] == name[i - 2];
    assert q[2 + |name|] == t[2 + |name|] == ')' && q[3 + |name|] == t[3 + |name|];
    assert CloseParen(q, 2) == 2 + |name|;
    assert q[2..2 + |name|] == name;
  }

  /** Else a percent sign and the char after it are, unless that is a newline; and nothing else is a match. */
  lemma MatchIs(q: Bytes)
    ensures var m := MatchAt(q);
            && (m.Some? <==> |q| >= 2 && q[0] == '%' && q[1] != '\n')
            && (m.Some? && m.value.name.None? ==> m.value.text == q[..2])
            && (m.Some? && m.value.name.Some? ==>
                 var name, text := m.value.name.value, m.value.text;
                 && name != [] && ')' !in name && text[|text| - 1] != '\n' && text <= q
                 && text == "%(" + name + ")" + [text[|text| - 1]])
  {
    var m := MatchAt(q);
    if m.Some? && m.value.name.Some? {
      var j := CloseParen(q, 2);
      assert m.value.text == q[..j + 2] == "%(" + q[2..j] + ")" + [q[j + 1]];
    }
  }

  ghost predicate AllShaped(cuts: seq<Cut>) {
    cuts != [] ==> (cuts[0].match_.Some? ==> Shaped(cuts[0].match_.value)) && AllShaped(cuts[1..])
  }

  /** The pieces and the matches, put together again. */
  function Rejoined(cuts: seq<Cut>): Bytes {
    if cuts == [] then []
    else cuts[0].pre + (if cuts[0].match_.Some? then cuts[0].match_.value.text else []) + Rejoined(cuts[1..])
  }

  lemma CutsAtMatch(q: Bytes)
    requires MatchAt(q).Some?
    ensures var n := |MatchAt(q).value.text|;
            && q == q[..n] + q[n..] && Rejoined(Cuts(q)) == q[..n] + Rejoined(Cuts(q[n..]))
            && (AllShaped(Cuts(q[n..])) ==> AllShaped(Cuts(q)))
  {
    var cuts, n := Cuts(q), |MatchAt(q).value.text|;
    MatchShaped(q);
    assert cuts[1..] == Cuts(q[n..]) && cuts[0] == Cut([], MatchAt(q));
    assert [] + q[..n] == q[..n];
  }

  lemma CutsAtChar(q: Bytes)
    requires q != [] && MatchAt(q).None?
    ensures q == [q[0]] + q[1..] && Rejoined(Cuts(q)) == [q[0]] + Rejoined(Cuts(q[1..]))
    ensures AllShaped(Cuts(q[1..])) ==> AllShaped(Cuts(q))
  {
    var cuts, rest := Cuts(q), Cuts(q[1..]);
    assert cuts[0] == rest[0].(pre := [q[0]] + rest[0].pre) && cuts[1..] == rest[1..];
    PreLongerBy(rest, cuts, [q[0]]);
  }

  lemma {:induction false} CutsRejoined(q: Bytes)
    ensures Rejoined(Cuts(q)) == q && AllShaped(Cuts(q))
    decreases |q|
  {
    if q == [] {
      assert Cuts(q)[1..] == [];
    } else if MatchAt(q).Some? {
      CutsAtMatch(q);
      CutsRejoined(q[|MatchAt(q).value.text|..]);
    } else {
      CutsAtChar(q);
      CutsRejoined(q[1..]);
    }
  }

  lemma PreLongerBy(rest: seq<Cut>, cuts: seq<Cut>, b: Bytes)
    requires rest != [] && cuts != [] && cuts[0] == rest[0].(pre := b + rest[0].pre) && cuts[1..] == rest[1..]
    ensures Rejoined(cuts) == b + Rejoined(rest)
    ensures AllShaped(rest) ==> AllShaped(cuts)
  {
    LongerText(b, rest[0].pre, if rest[0].match_.Some? then rest[0].match_.value.text else [], Rejoined(rest[1..]));
  }

  lemma LongerText(b: Bytes, pre: Bytes, text: Bytes, more: Bytes)
    ensures (b + pre) + text + more == b + (pre + text + more)
  {
  }

  lemma MergedRejoined(cuts: seq<Cut>)
    requires CutsValid(cuts) && cuts[0].match_.Some? && cuts[0].match_.value.text == "%%" && AllShaped(cuts)
    ensures Rejoined(Merged(cuts, "%%")) == Rejoined(cuts) && AllShaped(Merged(cuts, "%%"))
  {
    var m, rest := Merged(cuts, "%%"), cuts[1..];
    assert rest[0] == cuts[1] && m[1..] == rest[1..];
    PreLongerBy(rest, m, cuts[0].pre + "%%");
    assert Rejoined(cuts) == cuts[0].pre + "%%" + Rejoined(rest);
  }

  lemma SpellingIs(m: Match, pre: Bytes, i: nat)
    requires Shaped(m) && FormatOf(m).Some?
    ensures Spelling(QueryPart(pre, if m.name.Some? then Name(m.name.value) else Index(i), FormatOf(m).value)) == m.text
  {
  }

  lemma {:induction false} PartsSpell(cuts: seq<Cut>, i: nat, kind: Option<Item>)
    requires CutsValid(cuts) && AllShaped(cuts) && Parts(cuts, false, i, kind).Ok?
    ensures var parts := Parts(cuts, false, i, kind).value;
            parts != [] && Interleave(parts, Spellings(parts[..|parts| - 1])) == Rejoined(cuts)
    decreases |cuts|
  {
    var Cut(pre, m) := cuts[0];
    if m.None? {
      assert cuts[1..] == [];
      assert pre + [] + [] == pre;
    } else if m.value.text == "%%" {
      MergedRejoined(cuts);
      PartsSpell(Merged(cuts, "%%"), i, kind);
    } else {
      var item := if m.value.name.Some? then Name(m.value.name.value) else Index(i);
      var next := if kind.Some? then kind else Some(item);
      PartsSpell(cuts[1..], i + 1, next);
      SpellingIs(m.value, pre, i);
      FirstPart(QueryPart(pre, item, FormatOf(m.value).value), Parts(cuts[1..], false, i + 1, next).value);
    }
  }

  lemma FirstPart(part: QueryPart, rest: seq<QueryPart>)
    requires rest != []
    ensures var parts := [part] + rest;
            Interleave(parts, Spellings(parts[..|parts| - 1]))
            == part.pre + Spelling(part) + Interleave(rest, Spellings(rest[..|rest| - 1]))
  {
    var parts := [part] + rest;
    var n := |parts| - 1;
    assert parts[..n][1..] == rest[..n - 1] && parts[1..] == rest && parts[..n][0] == part;
    assert Spellings(parts[..n])[1..] == Spellings(rest[..n - 1]);
  }

  /**
   The parts are a reading of the query: with each placeholder written out again, by its name and by the
   letter of its format, between the texts of the parts, they give the query back, char by char.
   */
  lemma PartsSpellQuery(q: Bytes)
    requires Split(q, false).Ok?
    ensures var parts := Split(q, false).value;
            parts != [] && Interleave(parts, Spellings(parts[..|parts| - 1])) == q
  {
    CutsRejoined(q);
    PartsSpell(Cuts(q), 0, None);
  }

  // ---------- what is refused ----------

  /** The matches of a query. */
  function Matches(cuts: seq<Cut>): (r: seq<Match>)
    requires CutsValid(cuts)
    ensures forall i :: 0 <= i < |r| ==> 2 <= |r[i].text|
  {
    if cuts[0].match_.None? then [] else [cuts[0].match_.value] + Matches(cuts[1..])
  }

  predicate IsPercent(m: Match) { m.text == "%%" }

  predicate Named(m: Match) { m.name.Some? }

  /** No placeholder: it does not end in one of the three letters. */
  predicate Unknown(m: Match) { |m.text| > 0 && m.text[|m.text| - 1] !in "stb" }

  /** Of another kind than a placeholder before it; `kind` says if one was met and whether it was named. */
  ghost predicate Mixed(ms: seq<Match>, k: nat, kind: Option<bool>)
    requires k < |ms|
  {
    || (kind.Some? && kind.value != Named(ms[k]))
    || (exists j :: 0 <= j < k && !IsPercent(ms[j]) && Named(ms[j]) != Named(ms[k]))
  }

  ghost predicate Faulty(ms: seq<Match>, k: nat, kind: Option<bool>)
    requires k < |ms|
  {
    !IsPercent(ms[k]) && (Unknown(ms[k]) || Mixed(ms, k, kind))
  }

  /** The error for a faulty match: a percent sign before a blank or an open parenthesis is taken for an unfinished placeholder. */
  function ErrorFor(m: Match): Error {
    if m.text == "%(" || m.text == "% " then IncompletePlaceholder
    else if Unknown(m) then BadPlaceholder
    else MixedPlaceholders
  }

  /** The outcome of the loop: the error of the first faulty match, if there is one. */
  ghost predicate Refused(ms: seq<Match>, kind: Option<bool>, r: Result<seq<QueryPart>, Error>) {
    && (r.Ok? ==> forall k :: 0 <= k < |ms| ==> !Faulty(ms, k, kind))
    && (r.Err? ==> exists k :: 0 <= k < |ms| && Faulty(ms, k, kind) && r.error == ErrorFor(ms[k])
                               && forall j :: 0 <= j < k ==> !Faulty(ms, j, kind))
  }

  lemma FaultyLater(ms: seq<Match>, k: nat, kind: Option<bool>)
    requires k < |ms| - 1 && !Faulty(ms, 0, kind)
    ensures Faulty(ms, k + 1, kind)
            <==> Faulty(ms[1..], k, if kind.Some? || IsPercent(ms[0]) then kind else Some(Named(ms[0])))
  {
    var rest := ms[1..];
    assert rest[k] == ms[k + 1];
    assert forall j :: 0 <= j < k ==> rest[j] == ms[j + 1];
    if Mixed(ms, k + 1, kind) && !(kind.Some? && kind.value != Named(ms[k + 1])) {
      var j :| 0 <= j < k + 1 && !IsPercent(ms[j]) && Named(ms[j]) != Named(ms[k + 1]);
      if j > 0 { assert rest[j - 1] == ms[j]; }
    }
  }

  lemma RefusedLater(ms: seq<Match>, kind: Option<bool>, r: Result<seq<QueryPart>, Error>)
    requires ms != [] && !Faulty(ms, 0, kind)
    requires Refused(ms[1..], if kind.Some? || IsPercent(ms[0]) then kind else Some(Named(ms[0])), r)
    ensures Refused(ms, kind, r)
  {
    var kind2 := if kind.Some? || IsPercent(ms[0]) then kind else Some(Named(ms[0]));
    forall k | 0 <= k < |ms| - 1 ensures Faulty(ms, k + 1, kind) <==> Faulty(ms[1..], k, kind2) {
      FaultyLater(ms, k, kind);
    }
    if r.Ok? {
      forall k | 0 <= k < |ms| ensures !Faulty(ms, k, kind) {
        if k > 0 { assert !Faulty(ms[1..], k - 1, kind2); }
      }
    } else {
      var k :| 0 <= k < |ms| - 1 && Faulty(ms[1..], k, kind2) && r.error == ErrorFor(ms[1..][k])
               && forall j :: 0 <= j < k ==> !Faulty(ms[1..], j, kind2);
      assert Faulty(ms, k + 1, kind) && ms[k + 1] == ms[1..][k];
      forall j | 0 <= j < k + 1 ensures !Faulty(ms, j, kind) {
        if j > 0 { assert !Faulty(ms[1..], j - 1, kind2); }
      }
    }
  }

  function KindOf(kind: Option<Item>): Option<bool> { if kind.None? then None else Some(kind.value.Name?) }

  lemma FirstFaulty(ms: seq<Match>, kind: Option<bool>, r: Result<seq<QueryPart>, Error>)
    requires ms != [] && Faulty(ms, 0, kind) && r == Err(ErrorFor(ms[0]))
    ensures Refused(ms, kind, r)
  {
  }

  lemma {:induction false} PartsRefused(cuts: seq<Cut>, collapse: bool, i: nat, kind: Option<Item>)
    requires CutsValid(cuts)
    ensures Refused(Matches(cuts), KindOf(kind), Parts(cuts, collapse, i, kind))
    decreases |cuts|
  {
    var Cut(pre, m) := cuts[0];
    if m.Some? {
      var ms, r := Matches(cuts), Parts(cuts, collapse, i, kind);
      assert ms[1..] == Matches(cuts[1..]) && ms[0] == m.value;
      if m.value.text == "%%" {
        var merged := Merged(cuts, Percent(collapse));
        PartsRefused(merged, collapse, i, kind);
        MergedMatches(cuts, Percent(collapse));
        RefusedLater(ms, KindOf(kind), r);
      } else if Faulty(ms, 0, KindOf(kind)) {
        FirstFaulty(ms, KindOf(kind), r);
      } else {
        var item := if m.value.name.Some? then Name(m.value.name.value) else Index(i);
        PartsRefused(cuts[1..], collapse, i + 1, if kind.Some? then kind else Some(item));
        RefusedLater(ms, KindOf(kind), r);
      }
    }
  }

  lemma MergedMatches(cuts: seq<Cut>, percent: Bytes)
    requires CutsValid(cuts) && cuts[0].match_.Some?
    ensures Matches(Merged(cuts, percent)) == Matches(cuts)[1..]
  {
    var m, rest := Merged(cuts, percent), cuts[1..];
    assert rest[0] == cuts[1] && m[0].match_ == rest[0].match_ && m[1..] == rest[1..];
  }

  /**
   A query is refused exactly if one of its percent signs begins something else than `%%` or a placeholder,
   or if named and positional placeholders are mixed; the error tells which, for the first such sign.
   */
  lemma RefusedIff(q: Bytes, collapse: bool)
    ensures Refused(Matches(Cuts(q)), None, Split(q, collapse))
  {
    PartsRefused(Cuts(q), collapse, 0, None);
  }

  // ---------- the numbers and formats that are sent ----------

  /** `$` and a numeral. */
  predicate DollarReads(b: Bytes, n: nat) { |b| > 1 && b[0] == '$' && IsNumeral(b[1..], n) }

  /** What stands between the parts in the query that is sent: for each placeholder, its number. */
  lemma ServerTextReads(parts: seq<QueryPart>) returns (fill: seq<Bytes>)
    requires WellFormed(parts) && ForServer(parts).Ok?
    ensures var s := ForServer(parts).value;
            && |fill| == |s.numbers| == |parts| - 1 && s.query == Interleave(parts, fill)
            && forall k :: 0 <= k < |fill| ==> DollarReads(fill[k], s.numbers[k])
  {
    ServerNumbers(parts);
    var s := ForServer(parts).value;
    fill := Dollars(s.numbers);
    forall k | 0 <= k < |fill| ensures DollarReads(fill[k], s.numbers[k]) {
      DecimalReads(s.numbers[k]);
      assert fill[k][1..] == Decimal(s.numbers[k]);
    }
  }

  /** The format under the number given at `at` is the part's. */
  ghost predicate FormatFits(part: QueryPart, n: Numbered, at: nat) {
    at < |n.numbers| && 1 <= n.numbers[at] <= |n.formats| && part.format == n.formats[n.numbers[at] - 1]
  }

  lemma {:induction false} NamesFormats(parts: seq<QueryPart>, n: Numbered)
    requires |n.order| == |n.formats| && (forall p :: p in parts ==> p.item.Name?) && NumberNames(parts, n).Ok?
    ensures var r := NumberNames(parts, n).value;
            && n.formats <= r.formats && n.numbers <= r.numbers && |r.numbers| == |n.numbers| + |parts|
            && forall k :: 0 <= k < |parts| ==> FormatFits(parts[k], r, |n.numbers| + k)
    decreases |parts|
  {
    if parts != [] {
      NumberNamesStep(parts, n);
      var next := Counted(n, parts[0].item.name, parts[0].format);
      NamesFormats(parts[1..], next);
      var r := NumberNames(parts, n).value;
      assert FormatFits(parts[0], next, |n.numbers|);
      assert r.numbers[|n.numbers|] == next.numbers[|n.numbers|];
      forall k | 1 <= k < |parts| ensures FormatFits(parts[k], r, |n.numbers| + k) {
        assert FormatFits(parts[1..][k - 1], r, |next.numbers| + (k - 1));
      }
    }
  }

  lemma FormatsNamed(parts: seq<QueryPart>, k: nat)
    requires WellFormed(parts) && parts[0].item.Name? && ForServer(parts).Ok? && k < |parts| - 1
    ensures var s := ForServer(parts).value;
            && |s.numbers| == |parts| - 1
            && 1 <= s.numbers[k] <= |s.formats| && s.formats[s.numbers[k] - 1] == parts[k].format
  {
    var named, start := parts[..|parts| - 1], Numbered([], [], []);
    NamesFormats(named, start);
    assert FormatFits(named[k], NumberNames(named, start).value, |start.numbers| + k);
  }

  lemma FormatsPositional(parts: seq<QueryPart>, k: nat)
    requires WellFormed(parts) && parts[0].item.Index? && k < |parts| - 1
    ensures var s := ForServer(parts).value;
            && |s.numbers| == |s.formats| == |parts| - 1 && s.numbers[k] == k + 1 && s.formats[k] == parts[k].format
  {
    var n := |parts| - 1;
    assert ForServer(parts).value.numbers == seq(n, i => i + 1);
    assert parts[..n][k] == parts[k];
  }

  /** Each parameter is sent in the format that its placeholders ask for. */
  lemma FormatsAsked(parts: seq<QueryPart>)
    requires WellFormed(parts) && ForServer(parts).Ok?
    ensures var s := ForServer(parts).value;
            && |s.numbers| == |parts| - 1
            && forall k :: 0 <= k < |s.numbers| ==>
                 1 <= s.numbers[k] <= |s.formats| && s.formats[s.numbers[k] - 1] == parts[k].format
  {
    ServerNumbers(parts);
    forall k | 0 <= k < |parts| - 1
      ensures var s := ForServer(parts).value;
              1 <= s.numbers[k] <= |s.formats| && s.formats[s.numbers[k] - 1] == parts[k].format
    {
      if parts[0].item.Name? { FormatsNamed(parts, k); } else { FormatsPositional(parts, k); }
    }
  }

  /** Two placeholders of one name and two formats. */
  ghost predicate Conflict(parts: seq<QueryPart>, i: nat, j: nat) {
    i < j < |parts| - 1 && parts[i].item.Name? && parts[i].item == parts[j].item && parts[i].format != parts[j].format
  }

  lemma {:induction false} ConflictFound(parts: seq<QueryPart>, n: Numbered) returns (j: nat, i: int)
    requires |n.order| == |n.formats| && (forall p :: p in parts ==> p.item.Name?) && NumberNames(parts, n).Err?
    ensures NumberNames(parts, n).error == FormatConflict
    ensures j < |parts| && -|n.order| <= i < j
    ensures i >= 0 ==> parts[i].item == parts[j].item && parts[i].format != parts[j].format
    ensures i < 0 ==> n.order[-1 - i] == parts[j].item.name && n.formats[-1 - i] != parts[j].format
    decreases |parts|
  {
    var name, format := parts[0].item.name, parts[0].format;
    var at := IndexOf(n.order, name);
    if at < |n.order| && n.formats[at] != format {
      j, i := 0, -1 - at;
    } else {
      var next := Counted(n, name, format);
      j, i := ConflictFound(parts[1..], next);
      assert parts[1..][j] == parts[j + 1];
      if i >= 0 { assert parts[1..][i] == parts[i + 1]; }
      if i < 0 && -1 - i == |n.order| {
        i := 0;
      } else if i >= 0 {
        i := i + 1;
      }
      j := j + 1;
    }
  }

  lemma OneNameOneFormat(parts: seq<QueryPart>, i: nat, j: nat)
    requires WellFormed(parts) && parts[0].item.Name? && ForServer(parts).Ok?
    requires i < j < |parts| - 1 && parts[i].item == parts[j].item
    ensures parts[i].format == parts[j].format
  {
    ServerNumbers(parts);
    FormatsNamed(parts, i);
    FormatsNamed(parts, j);
    var s := ForServer(parts).value;
    assert s.order.value[s.numbers[i] - 1] == s.order.value[s.numbers[j] - 1];
    assert s.numbers[i] == s.numbers[j];
  }

  /** The conversion fails exactly if a name is used with two formats. */
  lemma ConflictIff(parts: seq<QueryPart>)
    requires WellFormed(parts)
    ensures ForServer(parts).Err? <==> exists i: nat, j: nat :: Conflict(parts, i, j)
    ensures ForServer(parts).Err? ==> ForServer(parts).error == FormatConflict
  {
    if ForServer(parts).Err? {
      var named := parts[..|parts| - 1];
      var j, i := ConflictFound(named, Numbered([], [], []));
      assert Conflict(parts, i, j);
    } else if parts[0].item.Name? {
      forall i: nat, j: nat | i < j < |parts| - 1 && parts[i].item == parts[j].item ensures parts[i].format == parts[j].format {
        OneNameOneFormat(parts, i, j);
      }
    }
  }

  // ---------- the parameters ----------

  /** When parameters are refused, and which ones are sent. */
  lemma ParametersIff(parts: seq<QueryPart>, vars: Vars, order: Option<seq<Bytes>>)
    requires WellFormed(parts) && (order.Some? ==> |parts| > 1 && parts[0].item.Name?)
    ensures var n, r := |parts| - 1, Reordered(parts, vars, order);
            && (r == Err(WrongCount) <==> vars.Sequence? && |vars.values| != n)
            && (r == Err(WrongKind) <==>
                 || (vars.Sequence? && |vars.values| == n > 0 && parts[0].item.Name?)
                 || (vars.Mapping? && vars.values_ != map[] && n > 0 && parts[0].item.Index?))
            && (r == Err(Missing) <==> vars.Mapping? && order.Some? && exists name :: name in order.value && name !in vars.values_)
            && (r.Err? ==> r.error in {WrongCount, WrongKind, Missing})
            && (r.Ok? && vars.Sequence? ==> r.value == vars.values)
            && (r.Ok? && vars.Mapping? && order.None? ==> r.value == [])
            && (r.Ok? && vars.Mapping? && order.Some? ==>
                 |r.value| == |order.value| && forall i :: 0 <= i < |r.value| ==> r.value[i] == vars.values_[order.value[i]])
  {
  }

  lemma OwnByPlace(parts: seq<QueryPart>, vs: seq<Value>, k: nat)
    requires WellFormed(parts) && ForServer(parts).Ok? && k < |parts| - 1
    requires Reordered(parts, Sequence(vs), ForServer(parts).value.order).Ok?
    ensures var s := ForServer(parts).value;
            && |s.numbers| == |parts| - 1 == |vs| && s.numbers[k] == k + 1
            && Reordered(parts, Sequence(vs), s.order).value == vs
  {
    FormatsPositional(parts, k);
  }

  lemma OwnByName(parts: seq<QueryPart>, m: map<Bytes, Value>, k: nat)
    requires WellFormed(parts) && ForServer(parts).Ok? && k < |parts| - 1 && parts[0].item.Name?
    requires Reordered(parts, Mapping(m), ForServer(parts).value.order).Ok?
    ensures var s := ForServer(parts).value;
            var params := Reordered(parts, Mapping(m), s.order).value;
            && |s.numbers| == |parts| - 1 && 1 <= s.numbers[k] <= |params| && parts[k].item.Name?
            && parts[k].item.name in m && params[s.numbers[k] - 1] == m[parts[k].item.name]
  {
    ServerNumbers(parts);
    var s := ForServer(parts).value;
    assert parts[k].item.name == s.order.value[s.numbers[k] - 1];
    assert s.order.value[s.numbers[k] - 1] in s.order.value;
  }

  /** Each placeholder is bound to its own parameter: the one in its place, or the one of its name. */
  lemma EachGetsItsOwn(parts: seq<QueryPart>, vars: Vars, k: nat)
    requires WellFormed(parts) && ForServer(parts).Ok? && Reordered(parts, vars, ForServer(parts).value.order).Ok?
    requires k < |parts| - 1 && (vars.Sequence? || parts[0].item.Name?)
    ensures var s := ForServer(parts).value;
            var params := Reordered(parts, vars, s.order).value;
            && |s.numbers| == |parts| - 1 && 1 <= s.numbers[k] <= |params|
            && match vars
               case Sequence(vs) => k < |vs| && params[s.numbers[k] - 1] == vs[k]
               case Mapping(m) =>
                 parts[k].item.Name? && parts[k].item.name in m && params[s.numbers[k] - 1] == m[parts[k].item.name]
  {
    match vars
    case Sequence(vs) => OwnByPlace(parts, vs, k);
    case Mapping(m) => OwnByName(parts, m, k);
  }
}
