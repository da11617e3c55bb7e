/**
 The maps of dumpers and loaders: what registering and looking up mean, on the dictionaries as
 values. Module AdapterObjects shows that the maps, which share dictionaries, behave like this.
 */
module Adapters {
  import opened Util

  /** A Python class: its identity, and its qualified name. */
  datatype Class = Class(id: nat, fqn: string)

  /** The formats of placeholders. */
  datatype PyFormat = AUTO | TEXT | BINARY

  /** The formats of the protocol. */
  datatype PqFormat = PqText | PqBinary

  function FromPq(f: PqFormat): PyFormat { if f.PqText? then TEXT else BINARY }

  /** A dumper or loader class; an oid of 0 is none. */
  datatype Adapter = Adapter(id: nat, format: PqFormat, oid: nat)

  datatype Key = OfClass(c: Class) | OfName(name: string) | OfOid(oid: nat)

  type Table = map<Key, Adapter>

  // ---------- looking up a dumper ----------

  /** What a class has in the table: an entry of its own, or one under its name. */
  function Entry(t: Table, c: Class): Option<Adapter> {
    if OfClass(c) in t then Some(t[OfClass(c)])
    else if OfName(c.fqn) in t then Some(t[OfName(c.fqn)])
    else None
  }

  /** get_dumper, along the classes that a class derives from, itself first. */
  function Lookup(t: Table, mro: seq<Class>): Option<Adapter> {
    if mro == [] then None
    else if Entry(t, mro[0]).Some? then Entry(t, mro[0])
    else Lookup(t, mro[1..])
  }

  /** The k-th class has this dumper, itself or by its name. */
  ghost predicate Has(t: Table, c: Class, d: Adapter) {
    if OfClass(c) in t then t[OfClass(c)] == d else OfName(c.fqn) in t && t[OfName(c.fqn)] == d
  }

  ghost predicate Unknown(t: Table, c: Class) { OfClass(c) !in t && OfName(c.fqn) !in t }

  /**
   A look-up finds the first class of the chain that the table knows, itself or by its name: its own entry
   if it has one, else that of its name.
   */
  lemma {:induction false} LookupIs(t: Table, mro: seq<Class>, d: Adapter)
    ensures Lookup(t, mro) == Some(d) <==>
              exists k :: 0 <= k < |mro| && Has(t, mro[k], d) && forall j :: 0 <= j < k ==> Unknown(t, mro[j])
  {
    if mro != [] {
      var rest := mro[1..];
      LookupIs(t, rest, d);
      if Unknown(t, mro[0]) {
        if k :| 0 <= k < |rest| && Has(t, rest[k], d) && forall j :: 0 <= j < k ==> Unknown(t, rest[j]) {
          assert Has(t, mro[k + 1], d);
          assert forall j :: 1 <= j < k + 1 ==> mro[j] == rest[j - 1];
        }
        if k :| 0 <= k < |mro| && Has(t, mro[k], d) && forall j :: 0 <= j < k ==> Unknown(t, mro[j]) {
          assert k > 0 && Has(t, rest[k - 1], d);
          assert forall j :: 0 <= j < k - 1 ==> rest[j] == mro[j + 1];
        }
      } else if Has(t, mro[0], d) {
        assert 0 < |mro|;
      }
    }
  }

  /** An entry under the name of a class, put under the class itself. */
  function Replaced(t: Table, c: Class): Table
    requires OfName(c.fqn) in t
  {
    (map k | k in t && k != OfName(c.fqn) :: t[k])[OfClass(c) := t[OfName(c.fqn)]]
  }

  /** The class whose name is replaced by a look-up, if any. */
  function ToReplace(t: Table, mro: seq<Class>): Option<Class> {
    if mro == [] || OfClass(mro[0]) in t then None
    else if OfName(mro[0].fqn) in t then Some(mro[0])
    else ToReplace(t, mro[1..])
  }

  /** The table after a look-up. */
  function AfterLookup(t: Table, mro: seq<Class>): Table {
    var c := ToReplace(t, mro);
    if c.None? then t else
    ToReplaceIs(t, mro);
    Replaced(t, c.value)
  }

  lemma {:induction false} ToReplaceIs(t: Table, mro: seq<Class>)
    ensures var c := ToReplace(t, mro);
            c.Some? ==> OfName(c.value.fqn) in t && OfClass(c.value) !in t && c.value in mro
                        && Lookup(t, mro) == Some(t[OfName(c.value.fqn)])
  {
    if mro != [] && Entry(t, mro[0]).None? {
      ToReplaceIs(t, mro[1..]);
    }
  }

  /** Any classes among `all`, in any order, find the same dumper in both tables. */
  ghost predicate SameLookups(t: Table, u: Table, all: set<Class>) {
    forall mro: seq<Class> :: Elems(mro) <= all ==> Lookup(t, mro) == Lookup(u, mro)
  }

  lemma {:induction false} SameEntries(t: Table, u: Table, mro: seq<Class>, all: set<Class>)
    requires Elems(mro) <= all && forall c :: c in all ==> Entry(t, c) == Entry(u, c)
    ensures Lookup(t, mro) == Lookup(u, mro)
  {
    if mro != [] {
      assert mro[0] in Elems(mro) && Elems(mro[1..]) <= all;
      SameEntries(t, u, mro[1..], all);
    }
  }

  /** Another class of the same name would find its dumper no more. */
  ghost predicate NameClash(t: Table, c: Class, all: set<Class>) {
    exists d :: d in all && d != c && d.fqn == c.fqn && OfClass(d) !in t
  }

  /** Putting an entry under the class changes no look-up, exactly if no other class goes by the same name. */
  lemma ReplacingKeepsLookupsIff(t: Table, c: Class, all: set<Class>)
    requires OfName(c.fqn) in t && OfClass(c) !in t
    ensures SameLookups(t, Replaced(t, c), all) <==> !NameClash(t, c, all)
  {
    var u := Replaced(t, c);
    if NameClash(t, c, all) {
      var d :| d in all && d != c && d.fqn == c.fqn && OfClass(d) !in t;
      var mro := [d];
      assert Elems(mro) <= all && Lookup(t, mro).Some? && mro[1..] == [];
      assert Lookup(u, mro) == Lookup(u, []);
    } else {
      forall mro: seq<Class> | Elems(mro) <= all ensures Lookup(t, mro) == Lookup(u, mro) {
        SameEntries(t, u, mro, all);
      }
    }
  }

  /** Qualified names tell the classes apart. */
  ghost predicate UniqueNames(all: set<Class>) {
    forall c, d :: c in all && d in all && c.fqn == d.fqn ==> c == d
  }

  lemma LookupKeepsLookups(t: Table, mro: seq<Class>, all: set<Class>)
    requires UniqueNames(all) && Elems(mro) <= all
    ensures SameLookups(t, AfterLookup(t, mro), all)
  {
    var c := ToReplace(t, mro);
    if c.Some? {
      ToReplaceIs(t, mro);
      assert c.value in Elems(mro);
      ReplacingKeepsLookupsIff(t, c.value, all);
    }
  }

  /** A dumper registered by name is found, unless the class has an entry of its own. */
  lemma RegisteredByNameIff(t: Table, c: Class, bases: seq<Class>, d: Adapter)
    ensures Lookup(t[OfName(c.fqn) := d], [c] + bases) == Some(d)
            <==> OfClass(c) !in t || t[OfClass(c)] == d
  {
    assert ([c] + bases)[0] == c;
  }

  /**
   A look-up keeps all look-ups, but not what later registrations do: after it, a dumper registered by
   name in the table, or in a copy of it, is not found, while it would have been before.
   */
  lemma LookupHidesLaterName(t: Table, c: Class, d: Adapter, e: Adapter)
    requires OfClass(c) !in t && OfName(c.fqn) in t && t[OfName(c.fqn)] == d && d != e
    ensures Lookup(t[OfName(c.fqn) := e], [c]) == Some(e)
    ensures Lookup(AfterLookup(t, [c])[OfName(c.fqn) := e], [c]) == Some(d)
  {
    assert ToReplace(t, [c]) == Some(c);
  }

  // ---------- the tables of a map ----------

  /** The tables of one map: dumpers by placeholder format, dumpers by oid, loaders. */
  datatype Tables = Tables(auto: Table, text: Table, binary: Table, oidText: Table, oidBinary: Table, loadText: Table, loadBinary: Table)

  function Dumpers(ts: Tables, f: PyFormat): Table {
    match f case AUTO => ts.auto case TEXT => ts.text case BINARY => ts.binary
  }

  /** register_dumper on a class or a name: for the dumper's format and for AUTO, and for its oid. */
  function WithDumper(ts: Tables, key: Option<Key>, d: Adapter): Tables {
    UnderOid(if key.None? then ts else UnderKey(ts, key.value, d), d)
  }

  function UnderKey(ts: Tables, key: Key, d: Adapter): Tables {
    if d.format.PqText? then ts.(auto := ts.auto[key := d], text := ts.text[key := d])
    else ts.(auto := ts.auto[key := d], binary := ts.binary[key := d])
  }

  function UnderOid(ts: Tables, d: Adapter): Tables {
    if d.oid == 0 then ts
    else if d.format.PqText? then ts.(oidText := ts.oidText[OfOid(d.oid) := d])
    else ts.(oidBinary := ts.oidBinary[OfOid(d.oid) := d])
  }

  function WithLoader(ts: Tables, oid: nat, l: Adapter): Tables {
    if l.format.PqText? then ts.(loadText := ts.loadText[OfOid(oid) := l])
    else ts.(loadBinary := ts.loadBinary[OfOid(oid) := l])
  }

  /** Two dumpers of different formats on one class: each is used for its format, the last one for AUTO. */
  lemma LastDumperIsAuto(ts: Tables, c: Class, bases: seq<Class>, d: Adapter, e: Adapter)
    requires d.format != e.format
    ensures var us := WithDumper(WithDumper(ts, Some(OfClass(c)), d), Some(OfClass(c)), e);
            var mro := [c] + bases;
            && Lookup(Dumpers(us, AUTO), mro) == Some(e)
            && Lookup(Dumpers(us, FromPq(d.format)), mro) == Some(d)
            && Lookup(Dumpers(us, FromPq(e.format)), mro) == Some(e)
  {
    assert ([c] + bases)[0] == c;
  }

  /** get_dumper_by_oid and get_loader; None if there is none. */
  function DumperByOid(ts: Tables, oid: nat, f: PqFormat): Option<Adapter> {
    var t := match f case PqText => ts.oidText case PqBinary => ts.oidBinary;
    if OfOid(oid) in t then Some(t[OfOid(oid)]) else None
  }

  function LoaderFor(ts: Tables, oid: nat, f: PqFormat): Option<Adapter> {
    var t := match f case PqText => ts.loadText case PqBinary => ts.loadBinary;
    if OfOid(oid) in t then Some(t[OfOid(oid)]) else None
  }

  /** What registering does to the tables of dumpers. */
  lemma OidKeepsDumpers(ts: Tables, d: Adapter, g: PyFormat)
    ensures Dumpers(UnderOid(ts, d), g) == Dumpers(ts, g)
  {
  }

  lemma KeyDumpers(ts: Tables, key: Key, d: Adapter, g: PyFormat)
    ensures Dumpers(UnderKey(ts, key, d), g)
            == if g == AUTO || g == FromPq(d.format) then Dumpers(ts, g)[key := d] else Dumpers(ts, g)
  {
  }

  lemma DumperTables(ts: Tables, key: Option<Key>, d: Adapter, g: PyFormat)
    ensures Dumpers(WithDumper(ts, key, d), g)
            == if key.Some? && (g == AUTO || g == FromPq(d.format)) then Dumpers(ts, g)[key.value := d] else Dumpers(ts, g)
  {
    if key.None? {
      OidKeepsDumpers(ts, d, g);
    } else {
      OidKeepsDumpers(UnderKey(ts, key.value, d), d, g);
      KeyDumpers(ts, key.value, d, g);
    }
  }

  lemma KeyKeepsOids(ts: Tables, key: Key, d: Adapter, oid: nat, f: PqFormat)
    ensures DumperByOid(UnderKey(ts, key, d), oid, f) == DumperByOid(ts, oid, f)
    ensures LoaderFor(UnderKey(ts, key, d), oid, f) == LoaderFor(ts, oid, f)
  {
  }

  lemma OidAdded(ts: Tables, d: Adapter, oid: nat, f: PqFormat)
    ensures DumperByOid(UnderOid(ts, d), oid, f)
            == if d.oid != 0 && oid == d.oid && f == d.format then Some(d) else DumperByOid(ts, oid, f)
    ensures LoaderFor(UnderOid(ts, d), oid, f) == LoaderFor(ts, oid, f)
  {
    match f case PqText => case PqBinary =>
  }

  /** A dumper is found by its oid in its own format; no other oid or format and no loader is touched by registering it. */
  lemma RegisteredByOid(ts: Tables, key: Option<Key>, d: Adapter, oid: nat, f: PqFormat)
    ensures var us := WithDumper(ts, key, d);
            && DumperByOid(us, oid, f) == (if d.oid != 0 && oid == d.oid && f == d.format then Some(d) else DumperByOid(ts, oid, f))
            && LoaderFor(us, oid, f) == LoaderFor(ts, oid, f)
  {
    if key.Some? {
      KeyKeepsOids(ts, key.value, d, oid, f);
      OidAdded(UnderKey(ts, key.value, d), d, oid, f);
    } else {
      OidAdded(ts, d, oid, f);
    }
  }

  /** A loader is found by its oid in its own format, and no dumper and no other loader changes. */
  lemma LoaderRegistered(ts: Tables, l: Adapter, to: nat, oid: nat, f: PqFormat)
    ensures var us := WithLoader(ts, to, l);
            && LoaderFor(us, oid, f) == (if oid == to && f == l.format then Some(l) else LoaderFor(ts, oid, f))
            && DumperByOid(us, oid, f) == DumperByOid(ts, oid, f)
            && forall g: PyFormat :: Dumpers(us, g) == Dumpers(ts, g)
  {
  }

  lemma LookupOne(t: Table, c: Class)
    ensures Lookup(t, [c]) == Entry(t, c)
  {
    assert [c][1..] == [];
  }

  /** Registering on a class changes what that class finds, in the dumper's format and in AUTO, and no other class or format. */
  lemma OthersKeepTheirs(ts: Tables, c: Class, d: Adapter, other: Class, g: PyFormat)
    ensures other != c || (g != AUTO && g != FromPq(d.format)) ==>
              Lookup(Dumpers(WithDumper(ts, Some(OfClass(c)), d), g), [other]) == Lookup(Dumpers(ts, g), [other])
  {
    DumperTables(ts, Some(OfClass(c)), d, g);
    LookupOne(Dumpers(ts, g), other);
    LookupOne(Dumpers(WithDumper(ts, Some(OfClass(c)), d), g), other);
    if other != c { EntryKept(Dumpers(ts, g), c, d, other); }
  }

  lemma EntryKept(t: Table, c: Class, d: Adapter, other: Class)
    requires other != c
    ensures Entry(t[OfClass(c) := d], other) == Entry(t, other)
  {
  }

  // ---------- the registry of types ----------

  /** What a type is known by: an oid, a name, or, for a range, its class with the oid of its elements. */
  datatype TypeKey = ByOid(oid: nat) | ByName(name: string) | BySubtype(cls: nat, oid: nat)

  /** A TypeInfo; an oid of 0 or an empty regtype is none. Ranges and multiranges have extra keys. */
  datatype TypeInfo = TypeInfo(name: string, oid: nat, arrayOid: nat, regtype: string, extra: seq<TypeKey>)

  type Types = map<TypeKey, TypeInfo>

  /** add: the type under each of its keys; its regtype only if that is free. */
  function Added(t: Types, info: TypeInfo): Types {
    var a := if info.oid != 0 then t[ByOid(info.oid) := info] else t;
    var b := if info.arrayOid != 0 then a[ByOid(info.arrayOid) := info] else a;
    var c := b[ByName(info.name) := info];
    var d := if info.regtype != [] && ByName(info.regtype) !in c then c[ByName(info.regtype) := info] else c;
    UnderKeys(d, info.extra, info)
  }

  /** The extra keys that a range or a multirange adds for itself. */
  function UnderKeys(t: Types, keys: seq<TypeKey>, info: TypeInfo): (u: Types)
    ensures forall k :: k in u <==> k in t || k in keys
    ensures forall k :: k in u ==> u[k] == if k in keys then info else t[k]
    decreases |keys|
  {
    if keys == [] then t else UnderKeys(t[keys[0] := info], keys[1..], info)
  }

  predicate EndsInBrackets(name: string) { |name| >= 2 && name[|name| - 2..] == "[]" }

  function BaseName(name: string): string { if EndsInBrackets(name) then name[..|name| - 2] else name }

  /** get: a name with brackets stands for the type of the elements. */
  function GetType(t: Types, key: TypeKey): Option<TypeInfo> {
    var k := if key.ByName? then ByName(BaseName(key.name)) else key;
    if k in t then Some(t[k]) else None
  }

  function GetOid(t: Types, name: string): Option<nat> {
    var info := GetType(t, ByName(name));
    if info.None? then None
    else Some(if EndsInBrackets(name) then info.value.arrayOid else info.value.oid)
  }

  /** An added type is found by its oids and its name, its array by the name with brackets. */
  lemma AddedIsFound(t: Types, info: TypeInfo)
    requires !EndsInBrackets(info.name) && (forall k :: k in info.extra ==> k.BySubtype?)
    ensures var u := Added(t, info);
            && (info.oid != 0 ==> GetType(u, ByOid(info.oid)) == Some(info))
            && (info.arrayOid != 0 ==> GetType(u, ByOid(info.arrayOid)) == Some(info))
            && GetOid(u, info.name) == Some(info.oid) && GetOid(u, info.name + "[]") == Some(info.arrayOid)
            && (forall k :: k in info.extra ==> GetType(u, k) == Some(info))
            && (info.regtype != [] && !EndsInBrackets(info.regtype) && ByName(info.regtype) !in t ==>
                 GetType(u, ByName(info.regtype)) == Some(info))
  {
    var name := info.name + "[]";
    assert name[|name| - 2..] == "[]" && name[..|name| - 2] == info.name;
  }

  /** A type that is not one of the added type's keys is found as before; a regtype in use keeps its type. */
  lemma AddedKeepsOthers(t: Types, info: TypeInfo, key: TypeKey)
    requires key != ByName(info.name) && key !in info.extra
    requires key.ByOid? ==> key.oid == 0 || (key.oid != info.oid && key.oid != info.arrayOid)
    ensures key in t ==> key in Added(t, info) && Added(t, info)[key] == t[key]
    ensures key !in t && key in Added(t, info) ==> key == ByName(info.regtype)
  {
  }
}
