/**
 The maps as objects that share dictionaries by reference and copy them before writing. A map that
 owns a dictionary is the only one to hold it; so no registration on one map can be seen from another.
 The registry of types does the same with its one dictionary.
 */
module AdapterObjects {
  import opened Util
  import opened Adapters

  /** A Python dict. */
  class Dict<K(==), V> {
    var m: map<K, V>

    constructor (m: map<K, V>)
      ensures this.m == m
    {
      this.m := m;
    }
  }

  /** The registry of types: a dictionary, and whether this registry owns it. */
  class TypesRegistry {
    var registry: Dict<TypeKey, TypeInfo>
    var ownState: bool

    /** An empty registry owns its dictionary. */
    constructor (ghost world: set<TypesRegistry>)
      requires TypesIsolated(world)
      ensures TypesIsolated(world + {this}) && registry.m == map[] && fresh(registry)
    {
      registry := new Dict(map[]);
      ownState := true;
    }

    constructor From(template: TypesRegistry, ghost world: set<TypesRegistry>)
      requires TypesIsolated(world) && template in world
      modifies template`ownState
      ensures TypesIsolated(world + {this}) && registry == template.registry
    {
      registry := template.registry;
      ownState := false;
      new;
      template.ownState := false;
    }

    /** clear: this registry starts anew, the others keep what they know. */
    method Clear(ghost world: set<TypesRegistry>)
      requires this in world && TypesIsolated(world)
      modifies this
      ensures TypesIsolated(world) && registry.m == map[]
      ensures forall b :: b in world && b != this ==> b.registry.m == old(b.registry.m)
    {
      registry := new Dict(map[]);
      ownState := true;
    }

    method EnsureOwnState(ghost world: set<TypesRegistry>)
      requires this in world && TypesIsolated(world)
      modifies this
      ensures TypesIsolated(world) && ownState && registry.m == old(registry.m)
      ensures registry == old(registry) || fresh(registry)
    {
      if !ownState {
        registry := new Dict(registry.m);
        ownState := true;
      }
    }

    /** add: the type goes in this registry, and in no other. */
    method Add(info: TypeInfo, ghost world: set<TypesRegistry>)
      requires this in world && TypesIsolated(world)
      modifies this, registry
      ensures TypesIsolated(world) && registry.m == Added(old(registry.m), info)
      ensures forall b :: b in world && b != this ==> b.registry.m == old(b.registry.m)
    {
      EnsureOwnState(world);
      AddKeys(info);
    }

    method AddKeys(info: TypeInfo)
      modifies registry
      ensures registry.m == Added(old(registry.m), info)
    {
      if info.oid != 0 {
        registry.m := registry.m[ByOid(info.oid) := info];
      }
      if info.arrayOid != 0 {
        registry.m := registry.m[ByOid(info.arrayOid) := info];
      }
      registry.m := registry.m[ByName(info.name) := info];
      if info.regtype != [] && ByName(info.regtype) !in registry.m {
        registry.m := registry.m[ByName(info.regtype) := info];
      }
      AddExtra(info);
    }

    method AddExtra(info: TypeInfo)
      modifies registry
      ensures registry.m == UnderKeys(old(registry.m), info.extra, info)
    {
      var keys := info.extra;
      assert keys[0..] == keys;
      for i := 0 to |keys|
        invariant UnderKeys(old(registry.m), keys, info) == UnderKeys(registry.m, keys[i..], info)
      {
        assert keys[i..][1..] == keys[i + 1..];
        registry.m := registry.m[keys[i] := info];
      }
    }
  }

  /** A dictionary that a registry owns is held by no other. */
  ghost predicate TypesIsolated(world: set<TypesRegistry>)
    reads world
  {
    forall a, b :: a in world && b in world && a.ownState && a != b ==> a.registry != b.registry
  }

  /**
   The dictionaries of a map, by number: dumpers for AUTO, TEXT and BINARY, dumpers by oid for text
   and binary, loaders for text and binary. The ownership flags are numbered alike.
   */
  const SLOTS: nat := 7

  function DumperSlot(f: PyFormat): nat { match f case AUTO => 0 case TEXT => 1 case BINARY => 2 }

  function OidSlot(f: PqFormat): nat { match f case PqText => 3 case PqBinary => 4 }

  function LoaderSlot(f: PqFormat): nat { match f case PqText => 5 case PqBinary => 6 }

  method NewDicts() returns (ds: seq<Dict<Key, Adapter>>)
    ensures |ds| == SLOTS && forall i :: 0 <= i < SLOTS ==> fresh(ds[i]) && ds[i].m == map[]
    ensures forall i, j :: 0 <= i < j < SLOTS ==> ds[i] != ds[j]
  {
    ds := [];
    for n := 0 to SLOTS
      invariant |ds| == n && forall i :: 0 <= i < n ==> fresh(ds[i]) && ds[i].m == map[]
      invariant forall i, j :: 0 <= i < j < n ==> ds[i] != ds[j]
    {
      var d := new Dict<Key, Adapter>(map[]);
      ds := ds + [d];
    }
  }

  class AdaptersMap {
    var dicts: seq<Dict<Key, Adapter>>
    var own: seq<bool>
    const types: TypesRegistry

    ghost predicate Valid()
      reads this
    {
      |dicts| == |own| == SLOTS
    }

    /** What the map says: the contents of its dictionaries. */
    ghost function View(): Tables
      requires Valid()
      reads this, dicts
    {
      Tables(dicts[0].m, dicts[1].m, dicts[2].m, dicts[3].m, dicts[4].m, dicts[5].m, dicts[6].m)
    }

    /** A map that starts empty owns all its dictionaries. */
    constructor (ghost world: set<AdaptersMap>, ghost registries: set<TypesRegistry>)
      requires Isolated(world) && TypesIsolated(registries)
      ensures Valid() && View() == Tables(map[], map[], map[], map[], map[], map[], map[])
      ensures Isolated(world + {this}) && TypesIsolated(registries + {types}) && types.registry.m == map[]
    {
      types := new TypesRegistry(registries);
      var ds := NewDicts();
      dicts := ds;
      own := [true, true, true, true, true, true, true];
    }

    /** A map made from another one shares its dictionaries, and neither owns them any more. */
    constructor From(template: AdaptersMap, ghost world: set<AdaptersMap>, ghost registries: set<TypesRegistry>)
      requires Isolated(world) && template in world && TypesIsolated(registries) && template.types in registries
      modifies template`own, template.types`ownState
      ensures Valid() && Isolated(world + {this})
      ensures View() == old(template.View()) && template.View() == old(template.View())
      ensures TypesIsolated(registries + {types}) && types.registry == template.types.registry
    {
      types := new TypesRegistry.From(template.types, registries);
      dicts := template.dicts;
      own := [false, false, false, false, false, false, false];
      new;
      template.own := [false, false, false, false, false, false, false];
    }

    /** One key of one dictionary is set, in a copy of the dictionary if it is shared. */
    method Put(i: nat, key: Key, d: Adapter, ghost world: set<AdaptersMap>)
      requires i < SLOTS && this in world && Isolated(world)
      modifies this, dicts[i]
      ensures Isolated(world) && (dicts[i] == old(dicts[i]) || fresh(dicts[i]))
      ensures forall j :: 0 <= j < SLOTS && j != i ==> dicts[j] == old(dicts[j]) && dicts[j].m == old(dicts[j].m)
      ensures dicts[i].m == old(dicts[i].m)[key := d]
      ensures forall b :: b in world && b != this ==> b.View() == old(b.View())
    {
      if !own[i] {
        var copy := new Dict(dicts[i].m);
        dicts := dicts[i := copy];
        own := own[i := true];
      }
      dicts[i].m := dicts[i].m[key := d];
    }

    /** register_dumper: after it this map says what registering means, and no other map has changed. */
    method RegisterDumper(key: Option<Key>, d: Adapter, ghost world: set<AdaptersMap>)
      requires this in world && Isolated(world)
      modifies this, dicts
      ensures Isolated(world)
      ensures View() == WithDumper(old(View()), key, d)
      ensures forall b :: b in world && b != this ==> b.View() == old(b.View())
    {
      if key.Some? {
        Put(DumperSlot(FromPq(d.format)), key.value, d, world);
        Put(DumperSlot(AUTO), key.value, d, world);
      }
      if d.oid != 0 {
        Put(OidSlot(d.format), OfOid(d.oid), d, world);
      }
    }

    method RegisterLoader(oid: nat, l: Adapter, ghost world: set<AdaptersMap>)
      requires this in world && Isolated(world)
      modifies this, dicts
      ensures Isolated(world)
      ensures View() == WithLoader(old(View()), oid, l)
      ensures forall b :: b in world && b != this ==> b.View() == old(b.View())
    {
      Put(LoaderSlot(l.format), OfOid(oid), l, world);
    }

    /** register_loader with the name of a type, which the map's own registry must know. */
    method RegisterLoaderByName(name: string, l: Adapter, ghost world: set<AdaptersMap>) returns (known: bool)
      requires this in world && Isolated(world)
      modifies this, dicts
      ensures Isolated(world)
      ensures known <==> GetType(old(types.registry.m), ByName(name)).Some?
      ensures View() == if known then WithLoader(old(View()), GetType(old(types.registry.m), ByName(name)).value.oid, l)
                        else old(View())
      ensures forall b :: b in world && b != this ==> b.View() == old(b.View())
    {
      var info := GetType(types.registry.m, ByName(name));
      known := info.Some?;
      if known {
        RegisterLoader(info.value.oid, l, world);
      }
    }

    /** get_dumper: a name found in the dictionary is replaced there, for all the maps that share it. */
    method GetDumper(mro: seq<Class>, f: PyFormat, ghost world: set<AdaptersMap>, ghost all: set<Class>)
      returns (r: Option<Adapter>)
      requires this in world && Isolated(world) && mro != [] && Elems(mro) <= all
      modifies dicts[DumperSlot(f)]
      ensures Isolated(world) && r == Lookup(old(Dumpers(View(), f)), mro)
      ensures dicts[DumperSlot(f)].m == AfterLookup(old(dicts[DumperSlot(f)].m), mro)
      ensures UniqueNames(all) ==>
                forall b, i :: b in world && 0 <= i < SLOTS ==> SameLookups(old(b.dicts[i].m), b.dicts[i].m, all)
    {
      var dmap := dicts[DumperSlot(f)];
      if OfClass(mro[0]) in dmap.m {
        return Some(dmap.m[OfClass(mro[0])]);
      }
      ghost var before := dmap.m;
      if UniqueNames(all) { LookupKeepsLookups(before, mro, all); }
      assert mro[0..] == mro;
      for i := 0 to |mro|
        invariant dmap.m == before
        invariant Lookup(before, mro) == Lookup(before, mro[i..]) && ToReplace(before, mro) == ToReplace(before, mro[i..])
      {
        assert mro[i..][1..] == mro[i + 1..];
        if OfClass(mro[i]) in dmap.m { return Some(dmap.m[OfClass(mro[i])]); }
        if OfName(mro[i].fqn) in dmap.m {
          var d := dmap.m[OfName(mro[i].fqn)];
          dmap.m := dmap.m - {OfName(mro[i].fqn)};
          dmap.m := dmap.m[OfClass(mro[i]) := d];
          assert dmap.m == Replaced(before, mro[i]);
          return Some(d);
        }
      }
      r := None;
    }
  }

  /** get_dumper_by_oid: the dictionary of the format has the dumper, or there is none. */
  method GetDumperByOid(a: AdaptersMap, oid: nat, f: PqFormat) returns (r: Option<Adapter>)
    requires a.Valid()
    ensures r == DumperByOid(a.View(), oid, f)
  {
    var dmap := a.dicts[OidSlot(f)];
    r := if OfOid(oid) in dmap.m then Some(dmap.m[OfOid(oid)]) else None;
  }

  method GetLoader(a: AdaptersMap, oid: nat, f: PqFormat) returns (r: Option<Adapter>)
    requires a.Valid()
    ensures r == LoaderFor(a.View(), oid, f)
  {
    var loaders := a.dicts[LoaderSlot(f)];
    r := if OfOid(oid) in loaders.m then Some(loaders.m[OfOid(oid)]) else None;
  }

  /** Dictionaries that a map owns are held by no other map, nor by the map itself in another place. */
  ghost predicate Isolated(world: set<AdaptersMap>)
    reads world
  {
    && (forall a :: a in world ==> a.Valid())
    && (forall a, b, i, j {:trigger a.own[i], b.dicts[j]} ::
          (a in world && b in world && 0 <= i < SLOTS && 0 <= j < SLOTS && a.own[i] && (a != b || i != j))
          ==> a.dicts[i] != b.dicts[j])
  }
}
