/** src/common/ers.cpp: the caches shared by the entry managers, and the two global lists. */
module SlabAllocator {
  import opened SlabCache

  const HEADER_SIZE: nat := 8

  /** The size of an entry with its header, an unsigned 32-bit sum. */
  function EntrySize(size: Uint32): Uint32 { (size + HEADER_SIZE) % WORD }

  /** An entry has room for its header and the object exactly if the sum does not wrap around. */
  lemma EntryHoldsObject(size: Uint32)
    ensures HEADER_SIZE + size <= EntrySize(size) <==> size < WORD - HEADER_SIZE
  {
  }

  class Instance {
    const cache: Cache
    var count: nat
    var next: Instance?
    var prev: Instance?
    ghost var held: set<Slot>

    constructor (cache: Cache)
      ensures this.cache == cache && count == 0 && held == {} && next == null && prev == null
    {
      this.cache := cache;
      count, held, next, prev := 0, {}, null, null;
    }
  }

  // ---- The intrusive doubly linked lists ----

  ghost function CacheBefore(s: seq<Cache>, i: nat): Cache?
    requires i < |s|
  {
    if i == 0 then null else s[i - 1]
  }

  ghost function CacheAfter(s: seq<Cache>, i: nat): Cache?
    requires i < |s|
  {
    if i == |s| - 1 then null else s[i + 1]
  }

  ghost predicate CachesLinked(head: Cache?, s: seq<Cache>)
    reads s`next, s`prev
  {
    && Distinct(s)
    && head == (if s == [] then null else s[0])
    && (forall i {:trigger s[i].prev} :: 0 <= i < |s| ==> s[i].prev == CacheBefore(s, i))
    && (forall i {:trigger s[i].next} :: 0 <= i < |s| ==> s[i].next == CacheAfter(s, i))
  }

  ghost function InstanceBefore(s: seq<Instance>, i: nat): Instance?
    requires i < |s|
  {
    if i == 0 then null else s[i - 1]
  }

  ghost function InstanceAfter(s: seq<Instance>, i: nat): Instance?
    requires i < |s|
  {
    if i == |s| - 1 then null else s[i + 1]
  }

  ghost predicate InstancesLinked(head: Instance?, s: seq<Instance>)
    reads s`next, s`prev
  {
    && Distinct(s)
    && head == (if s == [] then null else s[0])
    && (forall i {:trigger s[i].prev} :: 0 <= i < |s| ==> s[i].prev == InstanceBefore(s, i))
    && (forall i {:trigger s[i].next} :: 0 <= i < |s| ==> s[i].next == InstanceAfter(s, i))
  }

  function Without<T>(s: seq<T>, k: nat): seq<T>
    requires k < |s|
  {
    s[..k] + s[k + 1..]
  }

  lemma WithoutKeepsDistinct<T>(s: seq<T>, k: nat)
    requires k < |s| && Distinct(s)
    ensures Distinct(Without(s, k))
    ensures forall x :: x in Without(s, k) <==> x in s && x != s[k]
  {
    var r := Without(s, k);
    assert forall j :: 0 <= j < |r| ==> r[j] == s[if j < k then j else j + 1];
    forall x | x in s && x != s[k]
      ensures x in r
    {
      var i :| 0 <= i < |s| && s[i] == x;
      assert r[if i < k then i else i - 1] == x;
    }
  }

  /** Once the neighbours of position `k` point past it, the rest of the list is linked. */
  lemma CachesRelinked(was: seq<Cache>, k: nat, head: Cache?)
    requires k < |was| && Distinct(was)
    requires head == (if k > 0 then was[0] else CacheAfter(was, 0))
    requires forall i :: 0 <= i < |was| && i != k && i != k + 1 ==> was[i].prev == CacheBefore(was, i)
    requires forall i :: 0 <= i < |was| && i != k && i + 1 != k ==> was[i].next == CacheAfter(was, i)
    requires k + 1 < |was| ==> was[k + 1].prev == CacheBefore(was, k)
    requires k > 0 ==> was[k - 1].next == CacheAfter(was, k)
    ensures CachesLinked(head, Without(was, k))
  {
    var s := Without(was, k);
    forall j | 0 <= j < |s|
      ensures s[j].prev == CacheBefore(s, j) && s[j].next == CacheAfter(s, j)
    {
      var i := if j < k then j else j + 1;
      assert s[j] == was[i];
    }
    WithoutKeepsDistinct(was, k);
  }

  /** Once the neighbours of position `k` point past it, the rest of the list is linked. */
  lemma InstancesRelinked(was: seq<Instance>, k: nat, head: Instance?)
    requires k < |was| && Distinct(was)
    requires head == (if k > 0 then was[0] else InstanceAfter(was, 0))
    requires forall i :: 0 <= i < |was| && i != k && i != k + 1 ==> was[i].prev == InstanceBefore(was, i)
    requires forall i :: 0 <= i < |was| && i != k && i + 1 != k ==> was[i].next == InstanceAfter(was, i)
    requires k + 1 < |was| ==> was[k + 1].prev == InstanceBefore(was, k)
    requires k > 0 ==> was[k - 1].next == InstanceAfter(was, k)
    ensures InstancesLinked(head, Without(was, k))
  {
    var s := Without(was, k);
    forall j | 0 <= j < |s|
      ensures s[j].prev == InstanceBefore(s, j) && s[j].next == InstanceAfter(s, j)
    {
      var i := if j < k then j else j + 1;
      assert s[j] == was[i];
    }
    WithoutKeepsDistinct(was, k);
  }

  /** How many instances draw from cache `c`. */
  function CountOn(instances: seq<Instance>, c: Cache): nat {
    if instances == [] then 0 else (if instances[0].cache == c then 1 else 0) + CountOn(instances[1..], c)
  }

  lemma {:induction false} CountOnWithout(instances: seq<Instance>, k: nat, c: Cache)
    requires k < |instances|
    ensures CountOn(Without(instances, k), c) == CountOn(instances, c) - if instances[k].cache == c then 1 else 0
  {
    if k == 0 {
      assert Without(instances, 0) == instances[1..];
    } else {
      CountOnWithout(instances[1..], k - 1, c);
      assert Without(instances, k) == [instances[0]] + Without(instances[1..], k - 1);
    }
  }

  lemma {:induction false} CountOnMember(instances: seq<Instance>, k: nat)
    requires k < |instances|
    ensures CountOn(instances, instances[k].cache) > 0
  {
    if k > 0 {
      CountOnMember(instances[1..], k - 1);
    }
  }

  lemma {:induction false} CountOnZero(instances: seq<Instance>, c: Cache)
    ensures CountOn(instances, c) == 0 <==> forall i :: 0 <= i < |instances| ==> instances[i].cache != c
  {
    if instances != [] {
      CountOnZero(instances[1..], c);
      assert forall i :: 1 <= i < |instances| ==> instances[i] == instances[1..][i - 1];
    }
  }

  ghost predicate SameKey(a: Cache, b: Cache) {
    a.objectSize == b.objectSize && a.options == b.options
  }

  lemma WithoutKeepsKeys(s: seq<Cache>, k: nat)
    requires k < |s|
    requires forall i, j :: 0 <= i < j < |s| ==> !SameKey(s[i], s[j])
    ensures var r := Without(s, k); forall i, j :: 0 <= i < j < |r| ==> !SameKey(r[i], r[j])
  {
    var r := Without(s, k);
    assert forall j :: 0 <= j < |r| ==> r[j] == s[if j < k then j else j + 1];
  }

  /** An instance other than the removed one still finds its cache counted. */
  lemma OthersAreCounted(instances: seq<Instance>, k: nat, c: Cache)
    requires k < |instances|
    requires exists j :: 0 <= j < |Without(instances, k)| && Without(instances, k)[j].cache == c
    ensures CountOn(instances, c) > if instances[k].cache == c then 1 else 0
  {
    var j :| 0 <= j < |Without(instances, k)| && Without(instances, k)[j].cache == c;
    CountOnMember(Without(instances, k), j);
    CountOnWithout(instances, k, c);
  }

  class Allocator {
    var cacheList: Cache?
    var instanceList: Instance?
    ghost var caches: seq<Cache>
    ghost var instances: seq<Instance>

    ghost predicate Linked()
      reads this, caches`next, caches`prev, instances`next, instances`prev
    {
      CachesLinked(cacheList, caches) && InstancesLinked(instanceList, instances)
    }

    /** One cache per entry size and cache options. */
    ghost predicate KeysDiffer()
      reads `caches
    {
      forall i, j :: 0 <= i < j < |caches| ==> !SameKey(caches[i], caches[j])
    }

    /** Reference counts are the numbers of live instances. */
    ghost predicate Counted()
      reads `caches, `instances, caches`referenceCount
    {
      && (forall c :: c in caches ==> c.referenceCount == CountOn(instances, c))
      && (forall i :: i in instances ==> i.cache in caches)
    }

    ghost predicate CachesValid()
      reads `caches, caches
    {
      forall c :: c in caches ==> c.Valid()
    }

    /** What the instances hold is in use in their cache, and held by no other instance. */
    ghost predicate Held()
      reads `instances, instances`held, instances`count, (set i <- instances :: i.cache)`inUse
    {
      && (forall i :: i in instances ==> i.held <= i.cache.inUse && i.count == |i.held|)
      && (forall i, j :: i in instances && j in instances && i != j && i.cache == j.cache ==> i.held !! j.held)
    }

    ghost predicate Lists()
      reads this, caches`next, caches`prev, caches`referenceCount, instances`next, instances`prev
    {
      Linked() && KeysDiffer() && Counted()
    }

    ghost predicate NoIdleCache()
      reads `caches, caches`referenceCount
    {
      forall c :: c in caches ==> c.referenceCount > 0
    }

    ghost predicate Sound()
      reads this, caches, instances, set i <- instances :: i.cache
    {
      Lists() && CachesValid() && Held()
    }

    /** Between calls every cache has an instance as well. */
    ghost predicate Valid()
      reads this, caches, instances, set i <- instances :: i.cache
    {
      Sound() && NoIdleCache()
    }

    /** Dropping instances and caches from the lists leaves the rest of the holdings as they are. */
    twostate lemma HoldingsStay()
      requires old(CachesValid()) && old(Held())
      requires forall c :: c in caches ==>
        c in old(caches)
            && unchanged(c`reuseList, c`headers, c`blocks, c`max, c`free, c`used, c`usedObjs, c`inUse, c`reuse)
      requires forall i ::
               i in instances ==> i in old(instances) && unchanged(i`held, i`count) && unchanged(i.cache`inUse)
      ensures CachesValid() && Held()
    {
      forall c | c in caches
        ensures c.Valid()
      {
        c.StaysValid();
      }
    }

    /** Taking and giving back entries does not touch the lists or the reference counts. */
    twostate lemma ListsStay()
      requires old(Lists()) && old(NoIdleCache())
      requires unchanged(`cacheList, `instanceList, `caches, `instances)
      requires forall c :: c in caches ==>
        c.next == old(c.next) && c.prev == old(c.prev) && c.referenceCount == old(c.referenceCount)
      requires forall i :: i in instances ==> i.next == old(i.next) && i.prev == old(i.prev)
      ensures Lists() && NoIdleCache()
    {
    }

    constructor ()
      ensures Valid() && caches == [] && instances == []
    {
      cacheList, instanceList := null, null;
      caches, instances := [], [];
    }

    /** A new cache goes to the head of the list. */
    method LinkCache(c: Cache)
      requires CachesLinked(cacheList, caches) && c !in caches && c.next == null && c.prev == null
      modifies this`cacheList, this`caches, c`next, c`prev, caches`prev
      ensures caches == [c] + old(caches) && CachesLinked(cacheList, caches)
    {
      if cacheList == null {
        cacheList := c;
      } else {
        assert forall k :: 1 <= k < |caches| ==> caches[k] != cacheList;
        c.next := cacheList;
        c.next.prev := c;
        cacheList := c;
        cacheList.prev := null;
      }
      ghost var was := caches;
      caches := [c] + caches;
      assert forall k :: 1 <= k < |caches| ==> caches[k] == was[k - 1];
    }

    method LinkInstance(i: Instance)
      requires InstancesLinked(instanceList, instances) && i !in instances && i.next == null && i.prev == null
      modifies this`instanceList, this`instances, i`next, i`prev, instances`prev
      ensures instances == [i] + old(instances) && InstancesLinked(instanceList, instances)
    {
      if instanceList == null {
        instanceList := i;
      } else {
        assert forall k :: 1 <= k < |instances| ==> instances[k] != instanceList;
        i.next := instanceList;
        i.next.prev := i;
        instanceList := i;
        instanceList.prev := null;
      }
      ghost var was := instances;
      instances := [i] + instances;
      assert forall k :: 1 <= k < |instances| ==> instances[k] == was[k - 1];
    }

    /** `ers_free_cache`, the list part. */
    method UnlinkCache(c: Cache, ghost k: nat)
      requires CachesLinked(cacheList, caches) && k < |caches| && caches[k] == c
      modifies this`cacheList, this`caches, caches`next, caches`prev
      ensures caches == Without(old(caches), k) && CachesLinked(cacheList, caches)
    {
      ghost var was := caches;
      assert c.prev == CacheBefore(was, k) && c.next == CacheAfter(was, k);
      assert forall j :: 0 <= j < |was| && j != k + 1 ==> was[j] != c.next;
      assert forall j :: 0 <= j < |was| && j + 1 != k ==> was[j] != c.prev;
      if c.next != null {
        c.next.prev := c.prev;
      }
      if c.prev != null {
        c.prev.next := c.next;
      } else {
        cacheList := c.next;
      }
      caches := Without(caches, k);
      CachesRelinked(was, k, cacheList);
    }

    method UnlinkInstance(i: Instance, ghost k: nat)
      requires InstancesLinked(instanceList, instances) && k < |instances| && instances[k] == i
      modifies this`instanceList, this`instances, instances`next, instances`prev
      ensures instances == Without(old(instances), k) && InstancesLinked(instanceList, instances)
    {
      ghost var was := instances;
      assert i.prev == InstanceBefore(was, k) && i.next == InstanceAfter(was, k);
      assert forall j :: 0 <= j < |was| && j != k + 1 ==> was[j] != i.next;
      assert forall j :: 0 <= j < |was| && j + 1 != k ==> was[j] != i.prev;
      if i.next != null {
        i.next.prev := i.prev;
      }
      if i.prev != null {
        i.prev.next := i.next;
      } else {
        instanceList := i.next;
      }
      instances := Without(instances, k);
      InstancesRelinked(was, k, instanceList);
    }

    method Search(size: Uint32, options: CacheOptions) returns (at: Cache?)
      requires CachesLinked(cacheList, caches)
      ensures at != null ==> at in caches && at.objectSize == size && at.options == options
      ensures at == null ==> forall c :: c in caches ==> !(c.objectSize == size && c.options == options)
    {
      at := cacheList;
      ghost var k := 0;
      while at != null
        invariant 0 <= k <= |caches| && at == (if k < |caches| then caches[k] else null)
        invariant forall i :: 0 <= i < k ==> !(caches[i].objectSize == size && caches[i].options == options)
        decreases |caches| - k
      {
        if at.objectSize == size && at.options == options {
          return;
        }
        assert at.next == CacheAfter(caches, k);
        at := at.next;
        k := k + 1;
      }
    }

    method AddCache(size: Uint32, options: CacheOptions) returns (c: Cache)
      requires Linked() && KeysDiffer() && CachesValid()
      requires forall d :: d in caches ==> !(d.objectSize == size && d.options == options)
      modifies this`cacheList, this`caches, caches`prev
      ensures fresh(c) && caches == [c] + old(caches) && c.objectSize == size && c.options == options
      ensures c.referenceCount == 0 && c.inUse == {} && c.reuse == [] && c.blocks == []
      ensures Linked() && KeysDiffer() && CachesValid()
    {
      c := new Cache(size, options);
      ghost var was := caches;
      label Before:
      LinkCache(c);
      assert forall i :: 0 <= i < |caches| ==> caches[i] == if i == 0 then c else was[i - 1];
      forall d | d in caches
        ensures d.Valid()
      {
        assert d == c || d in was;
        d.StaysValid@Before();
      }
    }

    /** `ers_find_cache`: the cache with this key, or a new empty one at the head of the list. */
    method FindCache(size: Uint32, options: CacheOptions) returns (c: Cache)
      requires Valid()
      modifies this`cacheList, this`caches, caches`prev
      ensures Sound() && c in caches && c.objectSize == size && c.options == options
      ensures c in old(caches) ==> caches == old(caches)
      ensures c !in old(caches) ==> fresh(c) && caches == [c] + old(caches)
      ensures c !in old(caches) ==> c.referenceCount == 0 && c.inUse == {} && c.reuse == [] && c.blocks == []
    {
      var at := Search(size, options);
      if at != null {
        return at;
      }
      c := AddCache(size, options);
      CountOnZero(instances, c);
    }

    /** One more instance drawing from `c`. */
    method Attach(c: Cache) returns (i: Instance)
      requires Lists() && c in caches
      requires forall d :: d in caches && d != c ==> d.referenceCount > 0
      modifies `instanceList, `instances, c`referenceCount, instances`prev
      ensures fresh(i) && instances == [i] + old(instances) && i.cache == c && i.held == {} && i.count == 0
      ensures Lists() && NoIdleCache()
    {
      c.referenceCount := c.referenceCount + 1;
      i := new Instance(c);
      ghost var was := instances;
      LinkInstance(i);
      assert instances[1..] == was;
    }

    /** The new instance holds nothing, so nobody's holdings change. */
    method AttachEmpty(c: Cache) returns (i: Instance)
      requires Sound() && c in caches
      requires forall d :: d in caches && d != c ==> d.referenceCount > 0
      modifies `instanceList, `instances, c`referenceCount, instances`prev
      ensures fresh(i) && instances == [i] + old(instances) && i.cache == c && i.held == {}
      ensures Valid()
    {
      i := Attach(c);
      forall d | d in caches
        ensures d.Valid()
      {
        d.StaysValid();
      }
      assert forall j :: j in instances ==> j == i || j in instances[1..];
    }

    /** `ers_new`: one more instance, on the cache shared by all instances with this entry size and these options. */
    method New(size: Uint32, options: CacheOptions) returns (i: Instance)
      requires Valid()
      modifies this, caches`prev, caches`referenceCount, instances`prev
      ensures Valid()
      ensures fresh(i) && instances == [i] + old(instances) && i.held == {}
      ensures i.cache.objectSize == EntrySize(size) && i.cache.options == options
      ensures i.cache in old(caches) ==> caches == old(caches)
      ensures i.cache !in old(caches) ==> fresh(i.cache) && caches == [i.cache] + old(caches) && i.cache.blocks == []
    {
      var c := FindCache(EntrySize(size), options);
      i := AttachEmpty(c);
    }

    /** `Held`, with `was` standing for the entries in use in cache `c`. */
    ghost predicate HeldWithin(c: Cache, was: set<Slot>)
      reads `instances, instances`held, instances`count, (set i <- instances :: i.cache)`inUse
    {
      && (forall i :: i in instances ==> i.held <= (if i.cache == c then was else i.cache.inUse) && i.count == |i.held|)
      && (forall i, j :: i in instances && j in instances && i != j && i.cache == j.cache ==> i.held !! j.held)
    }

    /** Entries of one cache only have been taken or given back. */
    twostate lemma OthersStayValid(c: Cache)
      requires old(CachesValid()) && unchanged(`caches) && c.Valid()
      requires forall d :: d in caches && d != c ==>
        unchanged(d`reuseList, d`headers, d`blocks, d`max, d`free, d`used, d`usedObjs, d`inUse, d`reuse)
      ensures CachesValid()
    {
      forall d | d in caches && d != c
        ensures d.Valid()
      {
        d.StaysValid();
      }
    }

    /** Only entries of one cache have been taken or given back. */
    twostate predicate OnlyEntriesOf(c: Cache)
      reads *
    {
      && unchanged(this) && unchanged(c`next, c`prev, c`referenceCount)
      && (forall d :: d in caches && d != c ==> unchanged(d))
      && (forall i :: i in instances ==> unchanged(i))
    }

    /** That leaves the lists, the other caches and all holdings alone. */
    twostate lemma OneCacheChanged(c: Cache)
      requires old(Lists()) && old(NoIdleCache()) && old(CachesValid())
      requires OnlyEntriesOf(c) && c.Valid()
      ensures Lists() && NoIdleCache() && CachesValid()
      ensures old(Held()) ==> HeldWithin(c, old(c.inUse))
    {
      OthersStayValid(c);
      ListsStay();
    }

    method TakeFrom(c: Cache) returns (s: Slot)
      requires Lists() && NoIdleCache() && CachesValid() && Held() && c in caches
      modifies c`reuseList, c`blocks, c`max, c`free, c`used, c`usedObjs, c`inUse, c`reuse
      ensures Lists() && NoIdleCache() && CachesValid() && HeldWithin(c, old(c.inUse))
      ensures c.inUse == old(c.inUse) + {s} && s !in old(c.inUse)
      ensures old(c.reuse) != [] ==> s == old(c.reuse[0]) && c.reuse == old(c.reuse[1..]) && c.blocks == old(c.blocks)
      ensures old(c.reuse) == [] ==> c.reuse == []
      ensures old(c.free) > 0 ==> c.blocks == old(c.blocks)
      ensures old(c.reuse) == [] && old(c.free) == 0 ==> c.blocks == old(c.blocks) + [c.chunkSize]
    {
      s := c.Take();
      OneCacheChanged(c);
    }

    /** One more block is as large as its entries exactly if the chunk size fits. */
    lemma BlocksHoldSnoc(c: Cache, before: seq<Uint32>, chunk: Uint32)
      requires c.objectSize > 0 && c.blocks == before + [chunk]
      ensures c.BlocksHold() <==>
              (forall b :: 0 <= b < |before| ==> HoldsEntries(c.objectSize, before[b]))
                  && ChunkFits(c.objectSize, chunk)
    {
      BlockHoldsItsEntries(c.objectSize, chunk);
      assert forall b :: 0 <= b < |before| ==> c.blocks[b] == before[b];
      assert c.blocks[|before|] == chunk;
    }

    method Hold(i: Instance, s: Slot)
      requires Lists() && NoIdleCache() && CachesValid()
      requires i in instances && HeldWithin(i.cache, i.cache.inUse - {s}) && s in i.cache.inUse
      modifies i`count, i`held
      ensures Lists() && NoIdleCache() && CachesValid()
      ensures Held() && i.held == old(i.held) + {s}
    {
      i.count := i.count + 1;
      i.held := i.held + {s};
      ListsStay();
    }

    /** `ers_obj_alloc_entry`: an entry nobody holds. */
    method AllocEntry(i: Instance) returns (s: Slot)
      requires Valid() && i in instances
      modifies i`count, i`held
      modifies i.cache`reuseList, i.cache`blocks, i.cache`max, i.cache`free, i.cache`used, i.cache`usedObjs,
               i.cache`inUse, i.cache`reuse
      ensures Valid()
      ensures i.held == old(i.held) + {s} && i.cache.inUse == old(i.cache.inUse) + {s} && s !in old(i.cache.inUse)
      ensures old(i.cache.reuse) != [] ==> s == old(i.cache.reuse[0]) && i.cache.reuse == old(i.cache.reuse[1..])
      ensures old(i.cache.reuse) == [] ==> i.cache.reuse == []
      ensures i.cache.blocks == if old(i.cache.reuse) == [] && old(i.cache.free) == 0
        then old(i.cache.blocks) + [i.cache.chunkSize] else old(i.cache.blocks)
      ensures i.cache.objectSize > 0 ==>
        (i.cache.BlocksHold() <==>
          old(i.cache.BlocksHold())
          && (old(i.cache.reuse) == [] && old(i.cache.free) == 0 ==> ChunkFits(i.cache.objectSize, i.cache.chunkSize)))
    {
      ghost var before := i.cache.blocks;
      s := TakeFrom(i.cache);
      assert i.cache.inUse - {s} == old(i.cache.inUse);
      Hold(i, s);
      if i.cache.objectSize > 0 && i.cache.blocks != before {
        BlocksHoldSnoc(i.cache, before, i.cache.chunkSize);
      }
    }

    method Release(i: Instance, s: Slot)
      requires Lists() && NoIdleCache() && CachesValid()
      requires Held() && i in instances && s in i.held
      modifies i`count, i`held
      ensures Lists() && NoIdleCache() && CachesValid()
      ensures HeldWithin(i.cache, i.cache.inUse - {s}) && i.held == old(i.held) - {s}
    {
      i.count := i.count - 1;
      i.held := i.held - {s};
      ListsStay();
    }

    method GiveTo(c: Cache, s: Slot)
      requires Lists() && NoIdleCache() && CachesValid() && c in caches && s in c.inUse && HeldWithin(c, c.inUse - {s})
      modifies c`reuseList, c`headers, c`usedObjs, c`inUse, c`reuse
      ensures Lists() && NoIdleCache() && CachesValid() && Held()
      ensures c.inUse == old(c.inUse) - {s} && c.reuse == [s] + old(c.reuse)
    {
      c.Give(s);
      OneCacheChanged(c);
    }

    /** `ers_obj_free_entry`: an entry the instance holds goes to the head of the reuse list. */
    method FreeEntry(i: Instance, s: Slot)
      requires Valid() && i in instances && s in i.held
      modifies i`count, i`held, i.cache`reuseList, i.cache`headers, i.cache`usedObjs, i.cache`inUse, i.cache`reuse
      ensures Valid()
      ensures i.held == old(i.held) - {s} && i.cache.inUse == old(i.cache.inUse) - {s}
      ensures i.cache.reuse == [s] + old(i.cache.reuse)
    {
      Release(i, s);
      GiveTo(i.cache, s);
    }

    /** The list work of `ers_obj_destroy`: the cache goes with its last instance. */
    method Detach(i: Instance, ghost k: nat, ghost m: nat)
      requires Lists() && NoIdleCache()
      requires k < |instances| && instances[k] == i && m < |caches| && caches[m] == i.cache
      modifies this, i.cache`referenceCount, caches`next, caches`prev, instances`next, instances`prev
      ensures instances == Without(old(instances), k)
      ensures caches == if CountOn(old(instances), i.cache) > 1 then old(caches) else Without(old(caches), m)
      ensures Linked()
      ensures forall c :: c in caches ==> c.referenceCount == CountOn(instances, c)
      ensures NoIdleCache()
    {
      forall c: Cache
        ensures CountOn(Without(instances, k), c) == CountOn(instances, c) - if i.cache == c then 1 else 0
      {
        CountOnWithout(instances, k, c);
      }
      i.cache.referenceCount := i.cache.referenceCount - 1;
      WithoutKeepsDistinct(caches, m);
      if i.cache.referenceCount <= 0 {
        UnlinkCache(i.cache, m);
      }
      UnlinkInstance(i, k);
    }

    /** Every remaining instance still finds its cache on the list, and no key appears twice. */
    method DetachCounted(i: Instance, ghost k: nat, ghost m: nat)
      requires Lists() && NoIdleCache()
      requires k < |instances| && instances[k] == i && m < |caches| && caches[m] == i.cache
      modifies this, i.cache`referenceCount, caches`next, caches`prev, instances`next, instances`prev
      ensures instances == Without(old(instances), k)
      ensures caches == if CountOn(old(instances), i.cache) > 1 then old(caches) else Without(old(caches), m)
      ensures Lists() && NoIdleCache()
      ensures forall c :: c in caches ==> c in old(caches)
      ensures forall j :: j in instances ==> j in old(instances)
    {
      ghost var was := instances;
      WithoutKeepsKeys(caches, m);
      WithoutKeepsDistinct(caches, m);
      WithoutKeepsDistinct(instances, k);
      forall j | j in Without(was, k)
        ensures j.cache == i.cache ==> CountOn(was, i.cache) > 1
      {
        if j.cache == i.cache {
          OthersAreCounted(was, k, i.cache);
        }
      }
      Detach(i, k, m);
      assert forall j :: j in instances ==> j.cache in caches;
    }

    /** Whether an instance draws from `c`. */
    ghost predicate InUse(c: Cache)
      reads `instances
    {
      exists j :: j in instances && j.cache == c
    }

    /** The cache of a removed instance has other users exactly if it was counted more than once. */
    lemma OtherUsers(was: seq<Instance>, k: nat)
      requires k < |was| && instances == Without(was, k)
      ensures InUse(was[k].cache) <==> CountOn(was, was[k].cache) > 1
    {
      CountOnWithout(was, k, was[k].cache);
      CountOnZero(instances, was[k].cache);
    }

    /** `ers_obj_destroy`: the instance goes, and its cache with it if no other instance draws from that cache. */
    method Destroy(i: Instance)
      requires Valid() && i in instances
      modifies this, i.cache`referenceCount, caches`next, caches`prev, instances`next, instances`prev
      ensures Valid()
      ensures exists k :: 0 <= k < |old(instances)| && old(instances)[k] == i && instances == Without(old(instances), k)
      ensures InUse(i.cache) ==> caches == old(caches)
      ensures !InUse(i.cache) ==>
        exists m :: 0 <= m < |old(caches)| && old(caches)[m] == i.cache && caches == Without(old(caches), m)
    {
      ghost var k :| 0 <= k < |instances| && instances[k] == i;
      ghost var m :| 0 <= m < |caches| && caches[m] == i.cache;
      ghost var was := instances;
      DetachCounted(i, k, m);
      OtherUsers(was, k);
      HoldingsStay();
    }

    /** `ers_cache_size`. */
    method SetChunkSize(i: Instance, size: Uint32)
      requires Valid() && i in instances
      modifies i.cache`chunkSize
      ensures Valid() && i.cache.chunkSize == size
    {
      i.cache.SetChunkSize(size);
    }

    /** Two entries held at the same time never share a byte, and each lies inside its block if
        the blocks are as large as their entries. */
    lemma HeldEntriesAreApart(i: Instance, s: Slot, j: Instance, t: Slot)
      requires Valid() && i in instances && j in instances && s in i.held && t in j.held
      requires i.cache == j.cache && (i != j || s != t)
      ensures var c := i.cache;
        && s.block < |c.blocks|
        && (c.BlocksHold() ==> (s.index + 1) * c.objectSize <= BlockBytes(c.objectSize, c.blocks[s.block]))
        && (s.block == t.block ==>
              (s.index + 1) * c.objectSize <= t.index * c.objectSize
                  || (t.index + 1) * c.objectSize <= s.index * c.objectSize)
    {
      var c := i.cache;
      assert c.Valid();
      assert s in c.inUse && t in c.inUse && s != t;
      assert HandedOut(c.blocks, c.free, s) && HandedOut(c.blocks, c.free, t);
      if c.BlocksHold() {
        EntryInsideBlock(c.objectSize, c.blocks[s.block], s.index);
      }
      if s.block == t.block {
        EntriesDoNotOverlap(c.objectSize, s.index, t.index);
      }
    }
  }
}
