/** Registered runtimes, and secondary indexes over them. */
module RuntimeIndexes {
  import opened Options

  type RuntimeId = string

  datatype RuntimeType = Native | Hermes | Remote | Container | GpuWorker | Sandboxed | Distributed | ExternalAgent

  datatype RuntimeStatus = Stopped | Starting | Running | Paused | Stopping | Errored

  datatype RuntimeInfo = RuntimeInfo(
    id: RuntimeId,
    name: string,
    kind: RuntimeType,
    status: RuntimeStatus,
    lastHeartbeat: Option<int>,
    error: Option<string>)

  type Runtimes = map<RuntimeId, RuntimeInfo>

  function KindOf(info: RuntimeInfo): RuntimeType {
    info.kind
  }

  function StatusOf(info: RuntimeInfo): RuntimeStatus {
    info.status
  }

  /** An index from a property to the ids having it. An empty entry may stay behind. */
  type Index<K> = map<K, set<RuntimeId>>

  function Entry<K>(index: Index<K>, k: K): set<RuntimeId> {
    if k in index then index[k] else {}
  }

  function File<K>(index: Index<K>, k: K, id: RuntimeId): Index<K> {
    index[k := Entry(index, k) + {id}]
  }

  function Unfile<K>(index: Index<K>, k: K, id: RuntimeId): Index<K> {
    if k in index then index[k := index[k] - {id}] else index
  }

  /** The index lists each runtime under what the property says of it, and nowhere else. */
  ghost predicate Indexes<K(!new)>(index: Index<K>, runtimes: Runtimes, key: RuntimeInfo -> K) {
    forall k: K, id: RuntimeId :: id in Entry(index, k) <==> id in runtimes && key(runtimes[id]) == k
  }

  lemma FilingIndexes<K(!new)>(index: Index<K>, runtimes: Runtimes, key: RuntimeInfo -> K,
                               id: RuntimeId, info: RuntimeInfo)
    requires Indexes(index, runtimes, key) && id !in runtimes
    ensures Indexes(File(index, key(info), id), runtimes[id := info], key)
  {
    var after := File(index, key(info), id);
    forall k: K, x: RuntimeId
      ensures x in Entry(after, k) <==> x in runtimes[id := info] && key(runtimes[id := info][x]) == k
    {
      assert x in Entry(index, k) <==> x in runtimes && key(runtimes[x]) == k;
    }
  }

  lemma UnfilingIndexes<K(!new)>(index: Index<K>, runtimes: Runtimes, key: RuntimeInfo -> K, id: RuntimeId)
    requires Indexes(index, runtimes, key) && id in runtimes
    ensures Indexes(Unfile(index, key(runtimes[id]), id), runtimes - {id}, key)
  {
    var after := Unfile(index, key(runtimes[id]), id);
    forall k: K, x: RuntimeId
      ensures x in Entry(after, k) <==> x in runtimes - {id} && key((runtimes - {id})[x]) == k
    {
      assert x in Entry(index, k) <==> x in runtimes && key(runtimes[x]) == k;
    }
  }

  /** Moving a runtime from its old entry to its new one keeps the index right. */
  lemma RefilingIndexes<K(!new)>(index: Index<K>, runtimes: Runtimes, key: RuntimeInfo -> K,
                                 id: RuntimeId, info: RuntimeInfo)
    requires Indexes(index, runtimes, key) && id in runtimes
    ensures Indexes(File(Unfile(index, key(runtimes[id]), id), key(info), id), runtimes[id := info], key)
    ensures key(info) == key(runtimes[id]) ==> Indexes(index, runtimes[id := info], key)
  {
    UnfilingIndexes(index, runtimes, key, id);
    FilingIndexes(Unfile(index, key(runtimes[id]), id), runtimes - {id}, key, id, info);
    assert (runtimes - {id})[id := info] == runtimes[id := info];
  }

  /** Some key of a nonempty map. */
  ghost function SomeKey<K, V>(m: map<K, V>): (k: K)
    requires m != map[]
    ensures k in m
  {
    assert m.Keys != {};
    var k :| k in m.Keys;
    k
  }

  ghost function Sum<K>(counts: map<K, nat>): nat {
    if counts == map[] then 0
    else
      var k := SomeKey(counts);
      counts[k] + Sum(counts - {k})
  }

  function Sizes<K>(index: Index<K>): map<K, nat> {
    map k | k in index :: |index[k]|
  }

  lemma DroppedEntryIndexes<K(!new)>(index: Index<K>, runtimes: Runtimes, key: RuntimeInfo -> K, k: K)
    requires Indexes(index, runtimes, key) && k in index
    ensures index[k] <= runtimes.Keys
    ensures Indexes(index - {k}, runtimes - index[k], key)
  {
    forall id | id in index[k] ensures id in runtimes {
      assert id in Entry(index, k);
    }
    forall j: K, id: RuntimeId
      ensures id in Entry(index - {k}, j) <==> id in runtimes - index[k] && key((runtimes - index[k])[id]) == j
    {
      assert id in Entry(index, j) <==> id in runtimes && key(runtimes[id]) == j;
      assert id in Entry(index, k) <==> id in runtimes && key(runtimes[id]) == k;
    }
  }

  lemma EmptyIndex<K(!new)>(index: Index<K>, runtimes: Runtimes, key: RuntimeInfo -> K)
    requires Indexes(index, runtimes, key) && index == map[]
    ensures runtimes == map[]
  {
    assert forall id | id in runtimes :: id in Entry(index, key(runtimes[id]));
    assert runtimes.Keys == {};
  }

  lemma SizeWithout(runtimes: Runtimes, ids: set<RuntimeId>)
    requires ids <= runtimes.Keys
    ensures |runtimes| == |ids| + |runtimes - ids|
  {
    assert runtimes.Keys == ids + (runtimes - ids).Keys;
  }

  lemma SizesWithout<K>(index: Index<K>, k: K)
    requires k in index
    ensures Sizes(index) - {k} == Sizes(index - {k})
    ensures |index - {k}| < |index|
  {
    assert index.Keys == (index - {k}).Keys + {k};
  }

  /** The sizes of an index's entries add up to the number of runtimes. */
  lemma {:induction false} SizesAddUp<K(!new)>(index: Index<K>, runtimes: Runtimes, key: RuntimeInfo -> K)
    requires Indexes(index, runtimes, key)
    ensures Sum(Sizes(index)) == |runtimes|
    decreases |index|
  {
    if index == map[] {
      EmptyIndex(index, runtimes, key);
    } else {
      assert Sizes(index).Keys == index.Keys;
      var k := SomeKey(Sizes(index));
      DroppedEntryIndexes(index, runtimes, key, k);
      SizeWithout(runtimes, index[k]);
      SizesWithout(index, k);
      SizesAddUp(index - {k}, runtimes - index[k], key);
    }
  }

  /** Whether the runtime is registered, of the given kind and running. */
  predicate IsUp(runtimes: Runtimes, kind: RuntimeType, id: RuntimeId) {
    id in runtimes && runtimes[id].kind == kind && runtimes[id].status == Running
  }
}

module RuntimeRegistries {
  import opened Options
  import opened RuntimeIndexes

  datatype RegistryError = AlreadyRegistered | NotFound

  datatype Stats = Stats(total: nat, byType: map<RuntimeType, nat>, byStatus: map<RuntimeStatus, nat>)

  class RuntimeRegistry {
    var runtimes: Runtimes
    var typeIndex: Index<RuntimeType>
    var statusIndex: Index<RuntimeStatus>

    ghost predicate Valid()
      reads this
    {
      && (forall id | id in runtimes :: runtimes[id].id == id)
      && Indexes(typeIndex, runtimes, KindOf)
      && Indexes(statusIndex, runtimes, StatusOf)
    }

    constructor ()
      ensures Valid() && runtimes == map[]
    {
      runtimes, typeIndex, statusIndex := map[], map[], map[];
    }

    method Register(kind: RuntimeType, id: RuntimeId, name: string) returns (r: Result<RuntimeInfo, RegistryError>)
      requires Valid()
      modifies this
      ensures Valid()
      ensures r == if id in old(runtimes) then Err(AlreadyRegistered)
                   else Ok(RuntimeInfo(id, name, kind, Stopped, None, None))
      ensures runtimes == if r.Ok? then old(runtimes)[id := r.value] else old(runtimes)
    {
      if id in runtimes {
        return Err(AlreadyRegistered);
      }
      var info := RuntimeInfo(id, name, kind, Stopped, None, None);
      FilingIndexes(typeIndex, runtimes, KindOf, id, info);
      FilingIndexes(statusIndex, runtimes, StatusOf, id, info);
      runtimes := runtimes[id := info];
      typeIndex := File(typeIndex, kind, id);
      statusIndex := File(statusIndex, Stopped, id);
      r := Ok(info);
    }

    method Unregister(id: RuntimeId) returns (r: Result<(), RegistryError>)
      requires Valid()
      modifies this
      ensures Valid()
      ensures r == if id in old(runtimes) then Ok(()) else Err(NotFound)
      ensures runtimes == old(runtimes) - {id}
    {
      if id !in runtimes {
        return Err(NotFound);
      }
      var info := runtimes[id];
      UnfilingIndexes(typeIndex, runtimes, KindOf, id);
      UnfilingIndexes(statusIndex, runtimes, StatusOf, id);
      typeIndex := Unfile(typeIndex, info.kind, id);
      statusIndex := Unfile(statusIndex, info.status, id);
      runtimes := runtimes - {id};
      r := Ok(());
    }

    method UpdateStatus(id: RuntimeId, status: RuntimeStatus, error: Option<string>, now: int)
      returns (r: Option<RuntimeInfo>)
      requires Valid()
      modifies this
      ensures Valid()
      ensures r.Some? <==> id in old(runtimes)
      ensures r.Some? ==>
                var was := old(runtimes)[id];
                && runtimes == old(runtimes)[id := r.value]
                && r.value == was.(status := status, error := error,
                                   lastHeartbeat := if status == Running then Some(now) else was.lastHeartbeat)
      ensures r.None? ==> runtimes == old(runtimes)
    {
      if id !in runtimes {
        return None;
      }
      var was := runtimes[id];
      var heartbeat := if status == Running then Some(now) else was.lastHeartbeat;
      var info := was.(status := status, error := error, lastHeartbeat := heartbeat);
      RefilingIndexes(typeIndex, runtimes, KindOf, id, info);
      RefilingIndexes(statusIndex, runtimes, StatusOf, id, info);
      if was.status != status {
        statusIndex := Unfile(statusIndex, was.status, id);
        statusIndex := File(statusIndex, status, id);
      }
      runtimes := runtimes[id := info];
      r := Some(info);
    }

    /** The runtime's row; both indexes file the id under what the row says, and an id without a row
        under nothing. */
    method GetInfo(id: RuntimeId) returns (r: Option<RuntimeInfo>)
      requires Valid()
      ensures r == if id in runtimes then Some(runtimes[id]) else None
      ensures r.Some? ==> r.value.id == id
      ensures forall t :: id in Entry(typeIndex, t) <==> r.Some? && r.value.kind == t
      ensures forall s :: id in Entry(statusIndex, s) <==> r.Some? && r.value.status == s
    {
      r := if id in runtimes then Some(runtimes[id]) else None;
    }

    /** Answers from the type index what a scan of the whole table would. */
    method IsAvailable(kind: RuntimeType) returns (available: bool)
      requires Valid()
      ensures available <==> exists id :: IsUp(runtimes, kind, id)
    {
      var left := Entry(typeIndex, kind);
      while left != {}
        invariant left <= Entry(typeIndex, kind)
        invariant forall id | id in Entry(typeIndex, kind) - left :: !IsUp(runtimes, kind, id)
      {
        var id :| id in left;
        if id in runtimes && runtimes[id].status == Running {
          assert IsUp(runtimes, kind, id);
          return true;
        }
        left := left - {id};
      }
      assert forall id | IsUp(runtimes, kind, id) :: id in Entry(typeIndex, kind);
      available := false;
    }

    /** The running runtimes of a type, each once, in no particular order. */
    method GetAvailableRuntimes(kind: RuntimeType) returns (infos: seq<RuntimeInfo>)
      requires Valid()
      ensures forall info :: info in infos <==> IsUp(runtimes, kind, info.id) && runtimes[info.id] == info
      ensures forall i, j | 0 <= i < j < |infos| :: infos[i].id != infos[j].id
    {
      infos := [];
      var left := Entry(typeIndex, kind);
      while left != {}
        invariant left <= Entry(typeIndex, kind)
        invariant forall info: RuntimeInfo ::
            info in infos <==>
              info.id in Entry(typeIndex, kind) - left && IsUp(runtimes, kind, info.id) && runtimes[info.id] == info
        invariant forall i, j | 0 <= i < j < |infos| :: infos[i].id != infos[j].id
      {
        var id :| id in left;
        if id in runtimes && runtimes[id].status == Running {
          infos := infos + [runtimes[id]];
        }
        left := left - {id};
      }
    }

    /** Lists by type if one is given, else by status if one is given, else everything: with both
        filters the status is not looked at. */
    method ListRuntimes(kind: Option<RuntimeType>, status: Option<RuntimeStatus>) returns (infos: seq<RuntimeInfo>)
      requires Valid()
      ensures forall info :: info in infos <==>
                && info.id in runtimes && runtimes[info.id] == info
                && (if kind.Some? then info.kind == kind.value else status.Some? ==> info.status == status.value)
      ensures kind.Some? && status.Some? ==>
                ((forall info | info in infos :: info.status == status.value)
                  <==> forall id | id in runtimes && runtimes[id].kind == kind.value ::
                         runtimes[id].status == status.value)
    {
      var ids := if kind.Some? then Entry(typeIndex, kind.value)
      else if status.Some? then Entry(statusIndex, status.value)
      else runtimes.Keys;
      infos := [];
      var left := ids;
      while left != {}
        invariant left <= ids
        invariant forall info: RuntimeInfo ::
            info in infos <==> info.id in ids - left && info.id in runtimes && runtimes[info.id] == info
      {
        var id :| id in left;
        if id in runtimes {
          infos := infos + [runtimes[id]];
        }
        left := left - {id};
      }
      assert forall id | id in runtimes && id in ids :: runtimes[id] in infos;
    }

    /** The counts by type and by status each add up to the total. */
    method GetStats() returns (stats: Stats)
      requires Valid()
      ensures stats.total == |runtimes|
      ensures forall t | t in stats.byType :: stats.byType[t] == |set id | id in runtimes && runtimes[id].kind == t|
      ensures forall s | s in stats.byStatus ::
                stats.byStatus[s] == |set id | id in runtimes && runtimes[id].status == s|
      ensures Sum(stats.byType) == stats.total && Sum(stats.byStatus) == stats.total
    {
      stats := Stats(|runtimes|, Sizes(typeIndex), Sizes(statusIndex));
      SizesAddUp(typeIndex, runtimes, KindOf);
      SizesAddUp(statusIndex, runtimes, StatusOf);
      forall t | t in typeIndex ensures typeIndex[t] == set id | id in runtimes && runtimes[id].kind == t {
        assert forall id :: id in Entry(typeIndex, t) <==> id in runtimes && KindOf(runtimes[id]) == t;
      }
      forall s | s in statusIndex ensures statusIndex[s] == set id | id in runtimes && runtimes[id].status == s {
        assert forall id :: id in Entry(statusIndex, s) <==> id in runtimes && StatusOf(runtimes[id]) == s;
      }
    }
  }
}
