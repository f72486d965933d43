/** The storage manager in memory, and the write-back or write-through buffer in front of it. */
module MemoryStorage {
  type Bytes = seq<bv8>

  datatype Slot = Vacant | Taken(data: Bytes)

  const NEW_PAGE: int := -1

  /** The state of a memory store: its slots, and the stack of vacant ones. */
  datatype Store = Store(slots: seq<Slot>, vacant: seq<nat>)
  {
    /** The stack lists exactly the vacant slots, each once. */
    ghost predicate Valid() {
      && (forall i, j :: 0 <= i < j < |vacant| ==> vacant[i] != vacant[j])
      && (forall p :: p in vacant ==> p < |slots| && slots[p].Vacant?)
      && (forall p :: 0 <= p < |slots| && slots[p].Vacant? ==> p in vacant)
    }

    predicate Live(page: int) {
      0 <= page < |slots| && slots[page].Taken?
    }

    /** The stored byte arrays by id. */
    ghost function Contents(): map<int, Bytes> {
      map p | 0 <= p < |slots| && slots[p].Taken? :: slots[p].data
    }

    /** The id the next new entry gets. */
    function NextId(): nat {
      if vacant == [] then |slots| else vacant[|vacant|-1]
    }

    /** A new entry in the topmost vacant slot, or in a new one. */
    ghost function Added(data: Bytes): Store {
      if vacant == [] || vacant[|vacant|-1] >= |slots| then Store(slots + [Taken(data)], vacant)
      else Store(slots[vacant[|vacant|-1] := Taken(data)], vacant[..|vacant|-1])
    }

    ghost function Replaced(page: int, data: Bytes): Store
      requires Live(page)
    {
      Store(slots[page := Taken(data)], vacant)
    }

    ghost function Removed(page: int): Store
      requires Live(page)
    {
      Store(slots[page := Vacant], vacant + [page])
    }

    lemma AddedContents(data: Bytes)
      requires Valid()
      ensures Added(data).Contents() == Contents()[NextId() := data] && NextId() !in Contents()
    {
      if vacant != [] {
        assert vacant[|vacant|-1] in vacant;
      }
    }

    lemma AddedValid(data: Bytes)
      requires Valid()
      ensures Added(data).Valid() && !Live(NextId()) && Added(data).Live(NextId())
      ensures Added(data).Contents() == Contents()[NextId() := data] && NextId() !in Contents()
    {
      hide Contents;
      AddedContents(data);
      var after := Added(data);
      if vacant != [] {
        var top, rest := vacant[|vacant|-1], vacant[..|vacant|-1];
        assert vacant == rest + [top] && top in vacant;
        forall p | p in rest ensures p in vacant && p != top {
          var i :| 0 <= i < |rest| && rest[i] == p;
          assert vacant[i] == p;
        }
      }
    }

    lemma ReplacedValid(page: int, data: Bytes)
      requires Valid() && Live(page)
      ensures Replaced(page, data).Valid() && Replaced(page, data).Contents() == Contents()[page := data]
    {
    }

    lemma RemovedValid(page: int)
      requires Valid() && Live(page)
      ensures Removed(page).Valid() && Removed(page).Contents() == Contents() - {page}
    {
    }
  }

  class MemoryStorageManager {
    var buffer: seq<Slot>
    var emptyPages: seq<nat>

    ghost function State(): Store
      reads this
    {
      Store(buffer, emptyPages)
    }

    ghost predicate Valid()
      reads this
    {
      State().Valid()
    }

    constructor ()
      ensures Valid() && State() == Store([], []) && State().Contents() == map[]
    {
      buffer, emptyPages := [], [];
    }

    /** `loadByteArray`: an id without an entry is refused. */
    method Load(page: int) returns (ok: bool, data: Bytes)
      requires Valid()
      ensures ok <==> page in State().Contents()
      ensures ok ==> data == State().Contents()[page]
    {
      if !(0 <= page < |buffer|) || buffer[page].Vacant? {
        return false, [];
      }
      return true, buffer[page].data;
    }

    /** `storeByteArray`: a new entry gets an id that no entry has; otherwise an entry is overwritten. */
    method StoreBytes(page: int, data: Bytes) returns (ok: bool, page': int)
      requires Valid()
      modifies this
      ensures Valid() && (ok <==> page == NEW_PAGE || page in old(State().Contents()))
      ensures page' == if page == NEW_PAGE then old(State().NextId()) else page
      ensures page == NEW_PAGE ==> page' !in old(State().Contents())
      ensures State().Contents() == if ok then old(State().Contents())[page' := data] else old(State().Contents())
      ensures page == NEW_PAGE ==> State() == old(State()).Added(data)
      ensures page != NEW_PAGE ==> State() == if old(State()).Live(page) then old(State()).Replaced(page, data) else old(State())
    {
      page' := page;
      ok := true;
      if page == NEW_PAGE {
        State().AddedValid(data);
        if emptyPages == [] {
          buffer := buffer + [Taken(data)];
          page' := |buffer| - 1;
        } else {
          page' := emptyPages[|emptyPages|-1];
          emptyPages := emptyPages[..|emptyPages|-1];
          buffer := buffer[page' := Taken(data)];
        }
      } else {
        if !(0 <= page < |buffer|) || buffer[page].Vacant? {
          return false, page;
        }
        State().ReplacedValid(page, data);
        buffer := buffer[page := Taken(data)];
      }
    }

    /** `deleteByteArray`: the slot becomes vacant. */
    method Delete(page: int) returns (ok: bool)
      requires Valid()
      modifies this
      ensures Valid() && (ok <==> page in old(State().Contents()))
      ensures State().Contents() == old(State().Contents()) - {page}
      ensures State() == if old(State()).Live(page) then old(State()).Removed(page) else old(State())
    {
      if !(0 <= page < |buffer|) || buffer[page].Vacant? {
        return false;
      }
      State().RemovedValid(page);
      buffer := buffer[page := Vacant];
      emptyPages := emptyPages + [page];
      ok := true;
    }
  }

  // ---------------------------------------------------------------- the buffer

  datatype Cached = Cached(data: Bytes, dirty: bool)

  /** A store seen through a cache: cached entries hide the stored ones. */
  ghost function Overlay(store: Store, cache: map<int, Cached>): Store {
    Store(seq(|store.slots|, p requires 0 <= p < |store.slots| => if p in cache then Taken(cache[p].data) else store.slots[p]), store.vacant)
  }

  /** Every cached entry is stored; a clean one is stored with the same bytes. */
  ghost predicate Coherent(store: Store, cache: map<int, Cached>) {
    forall p :: p in cache ==> store.Live(p) && (!cache[p].dirty ==> store.slots[p] == Taken(cache[p].data))
  }

  lemma OverlayCached(store: Store, cache: map<int, Cached>, p: int)
    requires Coherent(store, cache)
    ensures Overlay(store, cache).Live(p) <==> store.Live(p)
    ensures store.Valid() ==> Overlay(store, cache).Valid()
    ensures Overlay(store, cache).NextId() == store.NextId()
    ensures p in cache ==> Overlay(store, cache).Live(p) && Overlay(store, cache).slots[p] == Taken(cache[p].data)
    ensures p !in cache && store.Live(p) ==> Overlay(store, cache).slots[p] == store.slots[p]
  {
  }

  /** Writing a dirty entry back, or dropping it afterwards, shows the same store. */
  lemma WriteBack(store: Store, cache: map<int, Cached>, p: int)
    requires Coherent(store, cache) && p in cache
    ensures store.Live(p)
    ensures
      var after := if cache[p].dirty then store.Replaced(p, cache[p].data) else store;
      Overlay(after, cache - {p}) == Overlay(store, cache) && Coherent(after, cache - {p})
  {
    var after := if cache[p].dirty then store.Replaced(p, cache[p].data) else store;
    assert Overlay(after, cache - {p}).slots == Overlay(store, cache).slots;
  }

  /** A new entry goes to the store first. */
  lemma Grow(store: Store, cache: map<int, Cached>, data: Bytes)
    requires store.Valid() && Coherent(store, cache)
    ensures Overlay(store.Added(data), cache) == Overlay(store, cache).Added(data) && Coherent(store.Added(data), cache)
    ensures store.NextId() !in cache && store.Added(data).Live(store.NextId()) && store.Added(data).slots[store.NextId()] == Taken(data)
  {
    store.AddedValid(data);
    var a, b := Overlay(store.Added(data), cache), Overlay(store, cache).Added(data);
    assert a.slots == b.slots;
  }

  /** An overwritten entry waits in the cache, or is stored at once. */
  lemma Overwrite(store: Store, cache: map<int, Cached>, p: int, data: Bytes, dirty: bool)
    requires Coherent(store, cache) && store.Live(p)
    ensures Overlay(store, cache).Live(p)
    ensures
      var after := if dirty then store else store.Replaced(p, data);
      && Overlay(after, cache[p := Cached(data, dirty)]) == Overlay(store, cache).Replaced(p, data)
      && Coherent(after, cache[p := Cached(data, dirty)])
  {
    var after := if dirty then store else store.Replaced(p, data);
    assert Overlay(after, cache[p := Cached(data, dirty)]).slots == Overlay(store, cache).Replaced(p, data).slots;
  }

  /** An entry is put into a cache that may have evicted another one before. */
  lemma PutEntry(store: Store, cache: map<int, Cached>, store': Store, cache': map<int, Cached>, page: int, e: Cached)
    requires Coherent(store', cache') && Overlay(store', cache') == Overlay(store, cache) && page !in cache && page !in cache'
    requires store.Live(page) && (!e.dirty ==> store.slots[page] == Taken(e.data))
    ensures Overlay(store, cache).Live(page) && Coherent(store', cache'[page := e])
    ensures Overlay(store', cache'[page := e]) == Overlay(store, cache).Replaced(page, e.data)
  {
    assert Overlay(store', cache').slots[page] == store'.slots[page] && Overlay(store, cache).slots[page] == store.slots[page];
    Overwrite(store', cache', page, e.data, e.dirty);
    if !e.dirty {
      assert store'.Replaced(page, e.data).slots == store'.slots;
    }
  }

  lemma PutTaken(cache: map<int, Cached>, page: int, e: Cached)
    requires page !in cache
    ensures cache[page := e] - {page} == cache && |cache[page := e]| == |cache| + 1
  {
  }

  lemma Erase(store: Store, cache: map<int, Cached>, p: int)
    requires Coherent(store, cache) && store.Live(p)
    ensures Overlay(store, cache).Live(p)
    ensures Overlay(store.Removed(p), cache - {p}) == Overlay(store, cache).Removed(p) && Coherent(store.Removed(p), cache - {p})
  {
    assert Overlay(store.Removed(p), cache - {p}).slots == Overlay(store, cache).Removed(p).slots;
  }

  /** Overwriting a stored entry that is not cached. */
  lemma Unaffected(store: Store, cache: map<int, Cached>, p: int, data: Bytes)
    requires Coherent(store, cache) && store.Live(p) && p !in cache
    ensures Overlay(store, cache).Live(p) && Coherent(store.Replaced(p, data), cache)
    ensures Overlay(store.Replaced(p, data), cache) == Overlay(store, cache).Replaced(p, data)
  {
    assert Overlay(store.Replaced(p, data), cache).slots == Overlay(store, cache).Replaced(p, data).slots;
  }

  lemma NothingCached(store: Store)
    ensures Overlay(store, map[]) == store
  {
    assert Overlay(store, map[]).slots == store.slots;
  }

  /** Whether the store itself, or the buffer in front of it, takes a write under this id. */
  predicate StoreTakes(store: Store, page: int) {
    page == NEW_PAGE || store.Live(page)
  }

  predicate BufferTakes(store: Store, page: int, writeThrough: bool) {
    page == NEW_PAGE || store.Live(page) || !writeThrough
  }

  /** The buffer answers like the store exactly if it writes through or the id is one to write to; a
      write under an unknown id is accepted by a write-back buffer. */
  lemma AnswersAgree(store: Store, page: int, writeThrough: bool)
    ensures (BufferTakes(store, page, writeThrough) <==> StoreTakes(store, page)) <==> (writeThrough || StoreTakes(store, page))
    ensures !Store([], []).Live(5) && BufferTakes(Store([], []), 5, false) && !StoreTakes(Store([], []), 5)
  {
  }

  /** Entry `page` leaves the cache; it is written to the store exactly if it is dirty. */
  ghost predicate Evicted(page: int, cache: map<int, Cached>, store: Store, cache': map<int, Cached>, store': Store) {
    && page in cache && cache' == cache - {page} && store.Live(page)
    && store' == if cache[page].dirty then store.Replaced(page, cache[page].data) else store
  }

  class RandomEvictionsBuffer {
    const capacity: nat
    const writeThrough: bool
    const sm: MemoryStorageManager
    var buffer: map<int, Cached>

    ghost predicate Valid()
      reads this, sm
    {
      && capacity >= 1 && |buffer| <= capacity
      && sm.Valid() && Coherent(sm.State(), buffer)
      && (writeThrough ==> forall p :: p in buffer ==> !buffer[p].dirty)
    }

    /** The store that a user of this buffer sees. */
    ghost function Through(): Store
      reads this, sm
    {
      Overlay(sm.State(), buffer)
    }

    constructor (sm: MemoryStorageManager, capacity: nat, writeThrough: bool)
      requires sm.Valid() && capacity >= 1
      ensures Valid() && Through() == sm.State() && this.sm == sm && this.capacity == capacity && this.writeThrough == writeThrough
    {
      this.sm, this.capacity, this.writeThrough := sm, capacity, writeThrough;
      buffer := map[];
      NothingCached(sm.State());
    }

    /** An entry leaves the cache, and is written back if it is dirty. */
    method WriteOut(page: int)
      requires Valid() && page in buffer
      modifies this`buffer, sm
      ensures Valid() && Through() == old(Through()) && |buffer| == |old(buffer)| - 1 && buffer.Keys <= old(buffer.Keys)
      ensures Evicted(page, old(buffer), old(sm.State()), buffer, sm.State())
    {
      hide Overlay;
      WriteBack(sm.State(), buffer, page);
      if buffer[page].dirty {
        var ok, p := sm.StoreBytes(page, buffer[page].data);
      }
      assert buffer.Keys == (buffer - {page}).Keys + {page};
      buffer := buffer - {page};
    }

    /** Evicts an entry picked at random, writing it back if it is dirty. */
    method RemoveEntry() returns (ghost gone: int)
      requires Valid()
      modifies this`buffer, sm
      ensures Valid() && Through() == old(Through()) && (old(buffer) != map[] ==> |buffer| < |old(buffer)|) && buffer.Keys <= old(buffer.Keys)
      ensures old(buffer) == map[] ==> buffer == map[] && sm.State() == old(sm.State())
      ensures old(buffer) != map[] ==> Evicted(gone, old(buffer), old(sm.State()), buffer, sm.State())
    {
      gone := 0;
      if |buffer| == 0 {
        return;
      }
      hide Overlay, Coherent, Evicted;
      var page := Pick(buffer.Keys);
      WriteOut(page);
      gone := page;
    }

    /** An entry that may be cached: its id is stored, with the same bytes if it is clean. */
    ghost predicate Fits(page: int, e: Cached)
      reads sm
    {
      sm.State().Live(page) && (writeThrough ==> !e.dirty) && (!e.dirty ==> sm.State().slots[page] == Taken(e.data))
    }

    /** Puts an entry into the cache, evicting another one when it is full. */
    method AddEntry(page: int, e: Cached) returns (ghost gone: int)
      requires Valid() && page !in buffer
      modifies this`buffer, sm
      ensures |buffer| <= capacity && page in buffer && buffer[page] == e
      ensures old(|buffer|) < capacity ==> buffer == old(buffer)[page := e] && sm.State() == old(sm.State())
      ensures old(|buffer|) == capacity ==> Evicted(gone, old(buffer), old(sm.State()), buffer - {page}, sm.State())
      ensures old(Fits(page, e)) ==> Valid() && Through() == old(Through()).Replaced(page, e.data)
    {
      hide Evicted, Overlay, Coherent, Store.Live, Store.Replaced, Store.Valid;
      gone := 0;
      ghost var store, cache := sm.State(), buffer;
      if |buffer| == capacity {
        gone := RemoveEntry();
      }
      if old(Fits(page, e)) {
        PutEntry(store, cache, sm.State(), buffer, page, e);
      }
      PutTaken(buffer, page, e);
      buffer := buffer[page := e];
    }

    /** `loadByteArray` through the buffer: the answer of the store seen through it. */
    method Load(page: int) returns (ok: bool, data: Bytes)
      requires Valid()
      modifies this`buffer, sm
      ensures Valid() && Through() == old(Through())
      ensures ok <==> Through().Live(page)
      ensures ok ==> Through().slots[page] == Taken(data)
      ensures ok ==> page in buffer && buffer[page].data == data
      ensures page in old(buffer) || !ok ==> buffer == old(buffer) && sm.State() == old(sm.State())
    {
      OverlayCached(sm.State(), buffer, page);
      if page in buffer {
        return true, buffer[page].data;
      }
      ok, data := sm.Load(page);
      if ok {
        ghost var gone := AddEntry(page, Cached(data, false));
        assert Through().slots == old(Through()).slots;
      }
    }

    /** `storeByteArray` through the buffer. A store would take a new entry or one that exists, and so
        does the buffer, with the same outcome; an unknown id is refused only when writing through. */
    method StoreBytes(page: int, data: Bytes) returns (ok: bool, page': int)
      requires Valid()
      modifies this`buffer, sm
      ensures ok <==> BufferTakes(old(Through()), page, writeThrough)
      ensures page' == if page == NEW_PAGE then old(Through()).NextId() else page
      ensures page == NEW_PAGE ==> Valid() && Through() == old(Through()).Added(data)
      ensures old(Through()).Live(page) ==> Valid() && Through() == old(Through()).Replaced(page, data)
      ensures page != NEW_PAGE && !old(Through()).Live(page) && writeThrough ==> Valid() && Through() == old(Through())
      ensures ok ==> page' in buffer && buffer[page'] == Cached(data, page != NEW_PAGE && !writeThrough)
      ensures page != NEW_PAGE && !writeThrough && page in old(buffer) ==> sm.State() == old(sm.State())
    {
      OverlayCached(sm.State(), buffer, page);
      ok, page' := true, page;
      if page == NEW_PAGE {
        Grow(sm.State(), buffer, data);
        ok, page' := sm.StoreBytes(page, data);
        ghost var gone := AddEntry(page', Cached(data, false));
        assert Through().slots == old(Through()).Added(data).slots;
      } else {
        if writeThrough {
          ok, page' := sm.StoreBytes(page, data);
          if !ok {
            return false, page;
          }
        }
        StoreCached(page, Cached(data, !writeThrough), old(sm.State()));
      }
    }

    /** Replaces the cached entry, or caches a new one. */
    method StoreCached(page: int, e: Cached, ghost before: Store)
      requires capacity >= 1 && |buffer| <= capacity && sm.Valid() && Coherent(before, buffer) && e.dirty == !writeThrough
      requires writeThrough ==> (forall p :: p in buffer ==> !buffer[p].dirty) && before.Live(page) && sm.State() == before.Replaced(page, e.data)
      requires !writeThrough ==> sm.State() == before
      modifies this`buffer, sm
      ensures page in buffer && buffer[page] == e && (page in old(buffer) ==> sm.State() == old(sm.State()))
      ensures before.Live(page) ==> Valid() && Overlay(before, old(buffer)).Live(page) && Through() == Overlay(before, old(buffer)).Replaced(page, e.data)
    {
      OverlayCached(before, buffer, page);
      if before.Live(page) {
        Overwrite(before, buffer, page, e.data, e.dirty);
      }
      if page in buffer {
        assert buffer[page := e].Keys == buffer.Keys;
        buffer := buffer[page := e];
      } else {
        if writeThrough {
          Unaffected(before, buffer, page, e.data);
        }
        ghost var gone := AddEntry(page, e);
        assert before.Live(page) ==> Through().slots == Overlay(before, old(buffer)).Replaced(page, e.data).slots;
      }
    }

    /** `deleteByteArray` through the buffer. */
    method Delete(page: int) returns (ok: bool)
      requires Valid()
      modifies this`buffer, sm
      ensures Valid() && (ok <==> old(Through()).Live(page))
      ensures Through() == if ok then old(Through()).Removed(page) else old(Through())
    {
      OverlayCached(sm.State(), buffer, page);
      if old(sm.State()).Live(page) {
        Erase(sm.State(), buffer, page);
      }
      if page in buffer {
        buffer := buffer - {page};
      }
      ok := sm.Delete(page);
      assert page !in old(buffer) ==> old(buffer) - {page} == old(buffer);
    }

    /** `clear`, and the destructor: all dirty entries are written back, and the store is then what was
        seen through the buffer. */
    method Clear()
      requires Valid()
      modifies this`buffer, sm
      ensures Valid() && buffer == map[] && sm.State() == old(Through()) && Through() == old(Through())
    {
      hide Overlay, Evicted, Coherent;
      while buffer != map[]
        invariant Valid() && Through() == old(Through())
        decreases |buffer|
      {
        var page := Pick(buffer.Keys);
        WriteOut(page);
      }
      NothingCached(sm.State());
    }
  }

  method Pick<T(==)>(s: set<T>) returns (x: T)
    requires s != {}
    ensures x in s
  {
    x :| x in s;
  }
}
