/**
 * The Twilio Sync store as the session mechanism uses it: services found by
 * friendly name and addressed by sid, each holding maps addressed by unique
 * name, each map a dictionary from item key to item data.
 *
 * The store is external state that every helper of the Sync module reads or
 * changes, so it is a class whose methods update `services`. The pure
 * functions below describe store values and are shared by the methods'
 * contracts and by the lemmas about turns.
 */
module Sync {
  import opened Wrappers
  import opened Lex

  /** The failures of Sync calls that the model distinguishes: code 20404
      (no such service, map or item) and a `create` on a key that is taken. */
  datatype ApiError = NotFound | ItemAlreadyExists

  datatype MapItem<D> = MapItem(key: string, data: D)

  /** A Sync service; `sid` is its position in creation order. */
  datatype Service<D> = Service(sid: nat, friendlyName: string, maps: map<string, map<string, D>>)

  type Store<D> = seq<Service<D>>

  /** What `fetchLastMapItem` resolves to: the listed items, or the sentinel
      'Map does not exist'. */
  datatype LastItem<D> = Listed(items: seq<MapItem<D>>) | MapDoesNotExist

  /** What `fetchMapItem`, `removeMapItem` and `removeAllMapItems` resolve to:
      the SDK's value, or the sentinel 'Map Item Not Found'. */
  datatype ItemResult<T> = Done(value: T) | MapItemNotFound

  /** Every service's sid is its index. */
  predicate ValidStore<D>(s: Store<D>)
  {
    forall i :: 0 <= i < |s| ==> s[i].sid == i
  }

  /** The items of map `name` of service `sid`, if both exist. */
  function MapOf<D>(s: Store<D>, sid: nat, name: string): Option<map<string, D>>
  {
    if sid < |s| && name in s[sid].maps then Some(s[sid].maps[name]) else None
  }

  /** `s'` has the services of `s`, in the same order, with the same sids and names. */
  predicate SameIdentities<D>(s: Store<D>, s': Store<D>)
  {
    && |s'| == |s|
    && forall i :: 0 <= i < |s| ==> s'[i].sid == s[i].sid && s'[i].friendlyName == s[i].friendlyName
  }

  /** Service `sid` with map `name` set to `items`, the rest of the store as it was. */
  function PutMap<D>(s: Store<D>, sid: nat, name: string, items: map<string, D>): (s': Store<D>)
    requires sid < |s|
    ensures SameIdentities(s, s') && MapOf(s', sid, name) == Some(items)
    ensures forall i, n :: (i != sid || n != name) ==> MapOf(s', i, n) == MapOf(s, i, n)
  {
    s[sid := s[sid].(maps := s[sid].maps[name := items])]
  }

  /** Service `sid` without map `name`, the rest of the store as it was. */
  function DropMap<D>(s: Store<D>, sid: nat, name: string): (s': Store<D>)
    requires sid < |s|
    ensures SameIdentities(s, s') && MapOf(s', sid, name) == None
    ensures forall i, n :: (i != sid || n != name) ==> MapOf(s', i, n) == MapOf(s, i, n)
  {
    s[sid := s[sid].(maps := s[sid].maps - {name})]
  }

  /** `services.list()` filtered by friendly name, in list order. */
  function Named<D>(s: Store<D>, name: string): (r: seq<Service<D>>)
    ensures forall i :: 0 <= i < |r| ==> r[i] in s && r[i].friendlyName == name
    ensures forall i :: 0 <= i < |s| && s[i].friendlyName == name ==> s[i] in r
  {
    if s == [] then []
    else
      var last := s[|s| - 1];
      assert s == s[..|s| - 1] + [last];
      Named(s[..|s| - 1], name) + (if last.friendlyName == name then [last] else [])
  }

  lemma NamedAppend<D>(s: Store<D>, x: Service<D>, name: string)
    ensures Named(s + [x], name) == Named(s, name) + (if x.friendlyName == name then [x] else [])
  {
  }

  /** Changing only the maps of services keeps which services the filter finds
      and their sids. */
  lemma {:induction false} NamedSameIdentities<D>(s: Store<D>, s': Store<D>, name: string)
    requires SameIdentities(s, s')
    ensures |Named(s', name)| == |Named(s, name)|
    ensures forall i :: 0 <= i < |Named(s, name)| ==> Named(s', name)[i].sid == Named(s, name)[i].sid
    decreases |s|
  {
    if s != [] {
      var init, init' := s[..|s| - 1], s'[..|s'| - 1];
      assert SameIdentities(init, init');
      NamedSameIdentities(init, init', name);
      assert s == init + [s[|s| - 1]] && s' == init' + [s'[|s'| - 1]];
      NamedAppend(init, s[|s| - 1], name);
      NamedAppend(init', s'[|s'| - 1], name);
    }
  }

  /** The filter's first element is the first service, in list order, bearing the name. */
  lemma {:induction false} NamedFirst<D>(s: Store<D>, name: string, i: nat)
    requires i < |s| && s[i].friendlyName == name
    requires forall j :: 0 <= j < i ==> s[j].friendlyName != name
    ensures Named(s, name) != [] && Named(s, name)[0] == s[i]
    decreases |s|
  {
    var init := s[..|s| - 1];
    assert s == init + [s[|s| - 1]];
    NamedAppend(init, s[|s| - 1], name);
    if i < |s| - 1 {
      NamedFirst(init, name, i);
    }
  }

  lemma PutMapSame<D>(s: Store<D>, sid: nat, name: string)
    requires MapOf(s, sid, name).Some?
    ensures PutMap(s, sid, name, MapOf(s, sid, name).value) == s
  {
    assert s[sid].maps[name := s[sid].maps[name]] == s[sid].maps;
  }

  lemma PutMapTwice<D>(s: Store<D>, sid: nat, name: string, a: map<string, D>, b: map<string, D>)
    requires sid < |s|
    ensures PutMap(PutMap(s, sid, name, a), sid, name, b) == PutMap(s, sid, name, b)
  {
    assert s[sid].maps[name := a][name := b] == s[sid].maps[name := b];
  }

  /** `syncMapItems.list({limit: 1, order: 'desc'})`: rejects with code 20404
      when the map is absent, otherwise lists the item with the greatest key,
      or nothing when the map is empty. */
  function ListNewest<D>(s: Store<D>, sid: nat, name: string): (r: Result<seq<MapItem<D>>, ApiError>)
    ensures r.Failure? <==> MapOf(s, sid, name).None?
    ensures r.Failure? ==> r.error == NotFound
    ensures r.Success? ==> |r.value| <= 1 && (r.value == [] <==> MapOf(s, sid, name).value == map[])
    ensures r.Success? && r.value != [] ==>
              var m := MapOf(s, sid, name).value;
              IsGreatest(r.value[0].key, m.Keys) && r.value[0].data == m[r.value[0].key]
  {
    match MapOf(s, sid, name)
    case None => Failure(NotFound)
    case Some(m) =>
      if m.Keys == {} then Success([])
      else
        var k := Greatest(m.Keys);
        Success([MapItem(k, m[k])])
  }

  /** After an item is added under a key greater than every existing key of its
      map, the newest listing returns exactly that item. */
  lemma NewestAfterAdding<D>(s: Store<D>, sid: nat, name: string, m: map<string, D>, key: string, data: D)
    requires sid < |s|
    requires forall k :: k in m ==> Less(k, key)
    ensures ListNewest(PutMap(s, sid, name, m[key := data]), sid, name) == Success([MapItem(key, data)])
  {
    assert m[key := data].Keys == m.Keys + {key};
    GreatestAfterAdding(m.Keys, key);
  }

  class SyncStore<D> {
    var services: Store<D>

    predicate Valid()
      reads this
    {
      ValidStore(services)
    }

    /** An account with no Sync services. */
    constructor ()
      ensures Valid() && services == []
    {
      services := [];
    }

    /** `fetchSyncService`: the first service whose friendly name is `name`,
        created (with no maps) only when there is none. */
    method FetchSyncService(name: string) returns (svc: Service<D>)
      requires Valid()
      modifies this
      ensures Valid()
      ensures Named(old(services), name) != [] ==>
                services == old(services) && svc == Named(old(services), name)[0]
      ensures Named(old(services), name) == [] ==>
                services == old(services) + [svc] && svc == Service(|old(services)|, name, map[])
      ensures svc.sid < |services| && services[svc.sid] == svc
      ensures svc.friendlyName == name && svc == Named(services, name)[0]
    {
      var listed := services;
      var matching := Named(listed, name);
      if |matching| == 0 {
        svc := Service(|services|, name, map[]);
        NamedAppend(services, svc, name);
        services := services + [svc];
      } else {
        svc := matching[0];
        ghost var j :| 0 <= j < |services| && services[j] == svc;
      }
    }

    /** `fetchSyncMap`: map `uniqueName` of service `sid`, created empty only
        when the service has no map of that name. Listing the maps of an
        unknown service rejects. */
    method FetchSyncMap(sid: nat, uniqueName: string) returns (r: Result<string, ApiError>)
      requires Valid()
      modifies this
      ensures Valid()
      ensures sid >= |old(services)| ==> r == Failure(NotFound) && services == old(services)
      ensures sid < |old(services)| ==> r == Success(uniqueName) && MapOf(services, sid, uniqueName).Some?
      ensures MapOf(old(services), sid, uniqueName).Some? ==> services == old(services)
      ensures sid < |old(services)| && MapOf(old(services), sid, uniqueName).None? ==>
                services == PutMap(old(services), sid, uniqueName, map[])
    {
      if sid >= |services| {
        return Failure(NotFound);
      }
      var listed := services[sid].maps.Keys;
      if uniqueName !in listed {
        services := PutMap(services, sid, uniqueName, map[]);
      }
      r := Success(uniqueName);
    }

    /** `fetchLastMapItem`: the newest listing, with code 20404 turned into
        the sentinel 'Map does not exist'. It changes nothing. */
    method FetchLastMapItem(sid: nat, uniqueName: string) returns (r: LastItem<D>)
      ensures r == MapDoesNotExist <==> MapOf(services, sid, uniqueName).None?
      ensures r.Listed? ==> r.items == ListNewest(services, sid, uniqueName).value
    {
      var listing := ListNewest(services, sid, uniqueName);
      match listing
      case Failure(_) =>
        r := MapDoesNotExist;
      case Success(items) =>
        r := Listed(items);
    }

    /** `deleteMap`: removes the map with all its items and resolves to true;
        an absent map makes the call reject, there is no not-found branch. */
    method DeleteMap(sid: nat, uniqueName: string) returns (r: Result<bool, ApiError>)
      requires Valid()
      modifies this
      ensures Valid()
      ensures MapOf(old(services), sid, uniqueName).Some? ==>
                r == Success(true) && services == DropMap(old(services), sid, uniqueName)
      ensures MapOf(old(services), sid, uniqueName).None? ==>
                r == Failure(NotFound) && services == old(services)
      ensures MapOf(services, sid, uniqueName).None?
    {
      if MapOf(services, sid, uniqueName).None? {
        return Failure(NotFound);
      }
      services := DropMap(services, sid, uniqueName);
      r := Success(true);
    }

    /** `fetchMapItem`: the item under `key`, or 'Map Item Not Found' when the
        service, map or key is absent. It changes nothing. */
    method FetchMapItem(sid: nat, uniqueName: string, key: string) returns (r: ItemResult<MapItem<D>>)
      ensures r.Done? <==> MapOf(services, sid, uniqueName).Some? && key in MapOf(services, sid, uniqueName).value
      ensures r.Done? ==> r.value == MapItem(key, MapOf(services, sid, uniqueName).value[key])
    {
      var items := MapOf(services, sid, uniqueName);
      if items.None? || key !in items.value {
        return MapItemNotFound;
      }
      r := Done(MapItem(key, items.value[key]));
    }

    /** `removeMapItem`: deletes only the item under `key` and resolves to true,
        or resolves to 'Map Item Not Found' and changes nothing. */
    method RemoveMapItem(sid: nat, uniqueName: string, key: string) returns (r: ItemResult<bool>)
      requires Valid()
      modifies this
      ensures Valid()
      ensures MapOf(old(services), sid, uniqueName).Some? && key in MapOf(old(services), sid, uniqueName).value ==>
                r == Done(true)
                && services == PutMap(old(services), sid, uniqueName, MapOf(old(services), sid, uniqueName).value - {key})
      ensures !(MapOf(old(services), sid, uniqueName).Some? && key in MapOf(old(services), sid, uniqueName).value) ==>
                r == MapItemNotFound && services == old(services)
    {
      var items := MapOf(services, sid, uniqueName);
      if items.None? || key !in items.value {
        return MapItemNotFound;
      }
      services := PutMap(services, sid, uniqueName, items.value - {key});
      r := Done(true);
    }

    /** `removeAllMapItems`, run sequentially: lists the map's items and removes
        each listed key, leaving the map present and empty. Listing an absent
        map yields 'Map Item Not Found'. */
    method RemoveAllMapItems(sid: nat, uniqueName: string) returns (r: ItemResult<()>)
      requires Valid()
      modifies this
      ensures Valid()
      ensures MapOf(old(services), sid, uniqueName).None? ==> r == MapItemNotFound && services == old(services)
      ensures MapOf(old(services), sid, uniqueName).Some? ==>
                r == Done(()) && services == PutMap(old(services), sid, uniqueName, map[])
    {
      var items := MapOf(services, sid, uniqueName);
      if items.None? {
        return MapItemNotFound;
      }
      var m := items.value;
      var remaining := m.Keys;
      assert (map k | k in remaining :: m[k]) == m;
      PutMapSame(services, sid, uniqueName);
      while remaining != {}
        invariant Valid()
        invariant remaining <= m.Keys
        invariant services == PutMap(old(services), sid, uniqueName, map k | k in remaining :: m[k])
        decreases remaining
      {
        var k :| k in remaining;
        var _ := RemoveMapItem(sid, uniqueName, k);
        assert (map k' | k' in remaining :: m[k']) - {k} == map k' | k' in remaining - {k} :: m[k'];
        PutMapTwice(old(services), sid, uniqueName, map k' | k' in remaining :: m[k'], map k' | k' in remaining - {k} :: m[k']);
        remaining := remaining - {k};
      }
      r := Done(());
    }

    /** The SDK's `syncMapItems.create({key, data})`: rejects when the map is
        absent or already holds `key` (no overwrite), otherwise adds the item. */
    method CreateMapItem(sid: nat, uniqueName: string, key: string, data: D) returns (r: Result<MapItem<D>, ApiError>)
      requires Valid()
      modifies this
      ensures Valid()
      ensures MapOf(old(services), sid, uniqueName).None? ==> r == Failure(NotFound) && services == old(services)
      ensures MapOf(old(services), sid, uniqueName).Some? && key in MapOf(old(services), sid, uniqueName).value ==>
                r == Failure(ItemAlreadyExists) && services == old(services)
      ensures MapOf(old(services), sid, uniqueName).Some? && key !in MapOf(old(services), sid, uniqueName).value ==>
                r == Success(MapItem(key, data))
                && services == PutMap(old(services), sid, uniqueName, MapOf(old(services), sid, uniqueName).value[key := data])
    {
      var items := MapOf(services, sid, uniqueName);
      if items.None? {
        return Failure(NotFound);
      }
      if key in items.value {
        return Failure(ItemAlreadyExists);
      }
      services := PutMap(services, sid, uniqueName, items.value[key := data]);
      r := Success(MapItem(key, data));
    }

    /** `createOrupdateMapItem`: looks the key up, then issues the same create
        in both branches, so it behaves exactly as `CreateMapItem`. */
    method CreateOrUpdateMapItem(sid: nat, uniqueName: string, key: string, data: D) returns (r: Result<MapItem<D>, ApiError>)
      requires Valid()
      modifies this
      ensures Valid()
      ensures MapOf(old(services), sid, uniqueName).None? ==> r == Failure(NotFound) && services == old(services)
      ensures MapOf(old(services), sid, uniqueName).Some? && key in MapOf(old(services), sid, uniqueName).value ==>
                r == Failure(ItemAlreadyExists) && services == old(services)
      ensures MapOf(old(services), sid, uniqueName).Some? && key !in MapOf(old(services), sid, uniqueName).value ==>
                r == Success(MapItem(key, data))
                && services == PutMap(old(services), sid, uniqueName, MapOf(old(services), sid, uniqueName).value[key := data])
    {
      var existing := FetchMapItem(sid, uniqueName, key);
      if existing.MapItemNotFound? {
        r := CreateMapItem(sid, uniqueName, key, data);
      } else {
        r := CreateMapItem(sid, uniqueName, key, data);
      }
    }
  }
}
