/** The registry subscription manager: each operation as the calls it makes on the remote registry. */
module RegistryManager {
  import opened Options
  import opened Subscribers
  import opened Stores
  import opened RegistryPaths
  import opened RegistryStore
  import opened RegistryRuns

  /** Those keys that are in the map, in order. */
  function FoundKeys<V>(m: map<string, V>, keys: seq<string>): (found: seq<string>)
    ensures forall k :: k in found <==> k in keys && k in m
  {
    if keys == [] then []
    else
      var init, last := keys[..|keys| - 1], keys[|keys| - 1];
      assert keys == init + [last];
      FoundKeys(m, init) + (if last in m then [last] else [])
  }

  /** Their values. */
  function FoundAmong<V>(m: map<string, V>, keys: seq<string>): seq<V> {
    var found := FoundKeys(m, keys);
    seq(|found|, i requires 0 <= i < |found| => m[found[i]])
  }

  lemma FoundAmongNone<V>(m: map<string, V>, keys: seq<string>)
    requires keys == []
    ensures FoundAmong(m, keys) == []
  {
  }

  lemma FoundAmongNext<V>(m: map<string, V>, keys: seq<string>, i: nat)
    requires i < |keys|
    ensures FoundAmong(m, keys[..i + 1]) == FoundAmong(m, keys[..i]) + (if keys[i] in m then [m[keys[i]]] else [])
  {
    var next := keys[..i + 1];
    assert next[..|next| - 1] == keys[..i] && next[|next| - 1] == keys[i];
  }

  lemma {:induction false} FoundKeysDistinct<V>(m: map<string, V>, keys: seq<string>)
    requires Distinct(keys)
    ensures Distinct(FoundKeys(m, keys))
    decreases |keys|
  {
    if keys != [] {
      FoundKeysDistinct(m, keys[..|keys| - 1]);
    }
  }

  lemma FoundAmongEnumerates<V>(m: map<string, V>, keys: seq<string>)
    requires Distinct(keys) && forall k :: k in m ==> k in keys
    ensures Enumerates(FoundAmong(m, keys), m)
  {
    FoundKeysDistinct(m, keys);
    assert EnumeratesBy(FoundAmong(m, keys), m, FoundKeys(m, keys));
  }

  /** Iterating over a hash visits every key once, in some order. */
  method HashKeys(m: map<string, string>) returns (keys: seq<string>)
    ensures Distinct(keys) && forall k :: k in keys <==> k in m
  {
    var left := m.Keys;
    keys := [];
    while left != {}
      invariant Distinct(keys) && left <= m.Keys
      invariant forall k :: k in keys <==> k in m && k !in left
      decreases |left|
    {
      var k :| k in left;
      keys := keys + [k];
      left := left - {k};
    }
  }

  /** The remote registry: single calls are atomic, and what Get answers is a copy. */
  class RemoteRegistry {
    var resources: Resources

    constructor ()
      ensures resources == map[]
    {
      resources := map[];
    }

    method Get(path: Option<string>) returns (res: Option<Resource>)
      ensures res == if path.Some? && path.value in resources then Some(resources[path.value]) else None
    {
      res := if path.Some? && path.value in resources then Some(resources[path.value]) else None;
    }

    /** done: whether the call works; nobody looks at its status. */
    method Put(path: string, res: Resource, done: bool)
      modifies this
      ensures resources == if done then old(resources)[path := res] else old(resources)
    {
      if done {
        resources := resources[path := res];
      }
    }

    method Delete(path: string, done: bool) returns (status: Status)
      modifies this
      ensures status == if done && path in old(resources) then Success else Failure
      ensures resources == if status == Success then old(resources) - {path} else old(resources)
    {
      status := if done && path in resources then Success else Failure;
      if status == Success {
        resources := resources - {path};
      }
    }

    /** The resources directly under a path, in some order; None when there are none. */
    method Entries(path: string) returns (entries: Option<seq<Resource>>, ghost keys: seq<string>)
      ensures entries.None? <==> Children(resources, path) == {}
      ensures entries.Some? ==> EnumeratesBy(entries.value, ChildResources(resources, path), keys)
    {
      var paths := set p | p in resources && ChildOf(path, p);
      ghost var m := ChildResources(resources, path);
      forall p | p in paths ensures Segment(path, p) in m && LookupPath(path, Segment(path, p)) == p {
        SegmentSplits(path, p, Segment(path, p));
      }
      forall id | id in m ensures ChildOf(path, LookupPath(path, id)) && Segment(path, LookupPath(path, id)) == id {
        SegmentSplits(path, LookupPath(path, id), id);
      }
      if paths == {} {
        return None, [];
      }
      hide ChildOf, Segment, LookupPath, ChildResources;
      var list := [];
      keys := [];
      ghost var left := m.Keys;
      while paths != {}
        invariant forall p :: p in paths ==>
            p in resources && ChildOf(path, p) && Segment(path, p) in left && LookupPath(path, Segment(path, p)) == p
        invariant forall id :: id in left ==> LookupPath(path, id) in paths
        invariant left <= m.Keys && |list| == |keys|
        invariant forall k :: k in keys <==> k in m && k !in left
        invariant forall i :: 0 <= i < |keys| ==> list[i] == m[keys[i]]
        invariant Distinct(keys)
        decreases |paths|
      {
        var p :| p in paths;
        list := list + [resources[p]];
        keys := keys + [Segment(path, p)];
        left := left - {Segment(path, p)};
        paths := paths - {p};
      }
      assert left == {};
      entries := Some(list);
    }
  }

  class Manager {
    const registry: RemoteRegistry

    /** savan_registry_subs_mgr_init_resource: the index is created unless it is there already. */
    constructor (registry: RemoteRegistry)
      modifies registry
      ensures this.registry == registry
      ensures registry.resources == if TOPIC_INDEX in old(registry.resources) then old(registry.resources)
                                    else old(registry.resources)[TOPIC_INDEX := Resource(None, map[])]
    {
      this.registry := registry;
      new;
      var res := registry.Get(Some(TOPIC_INDEX));
      if res.None? {
        registry.Put(TOPIC_INDEX, Resource(None, map[]), true);
      }
    }

    /** first and second tell whether the writes work. */
    method Insert(subscriber: Subscriber, first: bool, second: bool) returns (status: Status)
      requires subscriber.id.Some?
      modifies registry
      ensures var op := InsertOp(subscriber.Value());
              && registry.resources == Landed(old(registry.resources), op, first, second)
              && status == Reported(old(registry.resources), op, first)
    {
      var id, filter := subscriber.id.value, subscriber.filter;
      registry.Put(InsertPath(filter, id), NewResource(subscriber.Value()), first);
      var res := registry.Get(Some(TOPIC_INDEX));
      if res.None? {
        return Failure;
      }
      var properties := res.value.properties[id := Collection(filter)];
      registry.Put(TOPIC_INDEX, Resource(None, properties), second);
      status := Success;
    }

    method Update(subscriber: Subscriber, written: bool) returns (status: Status)
      requires subscriber.id.Some?
      modifies registry, subscriber`renewed
      ensures var op := UpdateOp(old(subscriber.Value()));
              && registry.resources == Landed(old(registry.resources), op, written, true)
              && status == Reported(old(registry.resources), op, written)
      ensures subscriber.renewed == (old(subscriber.renewed) || status.Success?)
    {
      var index := registry.Get(Some(TOPIC_INDEX));
      if index.None? {
        return Failure;
      }
      var id := subscriber.id.value;
      var path: Option<string> := None;
      if id in index.value.properties {
        path := Some(LookupPath(index.value.properties[id], id));
      }
      var res := registry.Get(path);
      if res.None? {
        return Failure;
      }
      registry.Put(path.value, UpdatedResource(res.value, subscriber.Value()), written);
      subscriber.renewed := true;
      status := Success;
    }

    method Remove(id: string, first: bool, second: bool) returns (status: Status)
      modifies registry
      ensures registry.resources == Landed(old(registry.resources), RemoveOp(id), first, second)
      ensures status == Reported(old(registry.resources), RemoveOp(id), first)
    {
      var res := registry.Get(Some(TOPIC_INDEX));
      if res.None? {
        return Failure;
      }
      status := Failure;
      if id in res.value.properties {
        status := registry.Delete(LookupPath(res.value.properties[id], id), first);
      }
      if status != Success {
        return Failure;
      }
      res := registry.Get(Some(TOPIC_INDEX));
      if res.None? {
        return Failure;
      }
      registry.Put(TOPIC_INDEX, Resource(None, res.value.properties - {id}), second);
      status := Success;
    }

    method Retrieve(id: string) returns (subscriber: Subscriber?)
      ensures subscriber == null <==> id !in StoreOf(registry.resources)
      ensures subscriber != null ==> fresh(subscriber) && subscriber.Value() == StoreOf(registry.resources)[id]
    {
      subscriber := null;
      var index := registry.Get(Some(TOPIC_INDEX));
      if index.None? {
        return;
      }
      var res: Option<Resource> := None;
      if id in index.value.properties {
        res := registry.Get(Some(LookupPath(index.value.properties[id], id)));
      }
      if res.Some? {
        var extracted := ExtractSubscriber(res.value);
        if extracted.Some? {
          subscriber := new Subscriber.Of(extracted.value);
          subscriber.id := Some(id);
        }
      }
    }

    /** Given the path of a collection: the subscribers in it, without ids. */
    method RetrieveFiltered(collection: string) returns (list: Option<seq<Option<Record>>>)
      ensures list.None? <==> Children(registry.resources, collection) == {}
      ensures list.Some? ==> Enumerates(list.value, Listing(registry.resources, collection))
    {
      var entries, keys := registry.Entries(collection);
      if entries.None? {
        return None;
      }
      var data := [];
      for i := 0 to |entries.value|
        invariant |data| == i
        invariant forall k :: 0 <= k < i ==> data[k] == ExtractSubscriber(entries.value[k])
      {
        data := data + [ExtractSubscriber(entries.value[i])];
      }
      ghost var listing := Listing(registry.resources, collection);
      ghost var raw := ChildResources(registry.resources, collection);
      assert raw.Keys == listing.Keys;
      assert EnumeratesBy(data, listing, keys);
      list := Some(data);
    }

    /** The subscriber an index entry leads to, with its id set. */
    method ReadEntry(id: string, collection: string) returns (subscriber: Option<Record>)
      requires id in Index(registry.resources) && Index(registry.resources)[id] == collection
      requires Present(registry.resources, id) ==> Located(registry.resources, id).Some?
      ensures subscriber == Find(StoreOf(registry.resources), id)
    {
      var res := registry.Get(Some(LookupPath(collection, id)));
      if res.None? {
        return None;
      }
      subscriber := Some(ExtractSubscriber(res.value).value.(id := Some(id)));
    }

    /** Without a filter: every subscriber the index leads to. An indexed resource without an address would be a
        NULL subscriber whose id is then set, so the caller must keep such resources out. */
    method RetrieveAll() returns (list: Option<seq<Record>>)
      requires forall id :: id in Index(registry.resources) && Present(registry.resources, id) ==>
          Located(registry.resources, id).Some?
      ensures list.None? <==> TOPIC_INDEX !in registry.resources
      ensures list.Some? ==> Enumerates(list.value, StoreOf(registry.resources))
    {
      var index := registry.Get(Some(TOPIC_INDEX));
      if index.None? {
        return None;
      }
      var ids := HashKeys(index.value.properties);
      var data: seq<Record> := [];
      ghost var store := StoreOf(registry.resources);
      assert store.Keys <= index.value.properties.Keys;
      hide Located, Present, StoreOf, Enumerates, FoundAmong;
      assert FoundAmong(store, ids[..0]) == [] by {
        FoundAmongNone(store, ids[..0]);
      }
      for i := 0 to |ids|
        invariant data == FoundAmong(store, ids[..i])
      {
        var subscriber := ReadEntry(ids[i], index.value.properties[ids[i]]);
        if subscriber.Some? {
          data := data + [subscriber.value];
        }
        FoundAmongNext(store, ids, i);
      }
      assert ids[..|ids|] == ids;
      FoundAmongEnumerates(store, ids);
      list := Some(data);
    }
  }
}
