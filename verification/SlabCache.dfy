/** src/common/ers.cpp: one cache of equally sized entries, cut from blocks and recycled through a reuse list. */
module SlabCache {

  const BLOCK_ENTRIES: nat := 2048
  const WORD: nat := 0x1_0000_0000

  /** `unsigned int`. */
  type Uint32 = n: int | 0 <= n < WORD

  /** An entry's place: entry `index` of block `block`. */
  datatype Slot = Slot(block: nat, index: nat)

  /** The pointer in an entry's header, used while the entry is on the reuse list. */
  datatype Link = End | To(slot: Slot)

  ghost predicate Distinct<T>(s: seq<T>) {
    forall i, j :: 0 <= i < j < |s| ==> s[i] != s[j]
  }

  /** The options a cache is chosen by: wiped when freed, and a chunk size of its own. */
  datatype CacheOptions = CacheOptions(clean: bool, flexChunk: bool)

  // ---- Blocks ----

  /** Bytes obtained for a block: the product is an unsigned 32-bit one. */
  function BlockBytes(size: Uint32, chunk: Uint32): Uint32 {
    (size * chunk) % WORD
  }

  /** Entries a new block leaves free after its first one is handed out, as an unsigned 32-bit difference. */
  function FreshFree(chunk: Uint32): Uint32 {
    (chunk + WORD - 1) % WORD
  }

  /** The entries that a block is counted for. */
  function Entries(chunk: Uint32): nat { FreshFree(chunk) + 1 }

  /** The block is as large as the entries that it is counted for. */
  predicate HoldsEntries(size: Uint32, chunk: Uint32) { Entries(chunk) * size <= BlockBytes(size, chunk) }

  /** The chunk sizes that `ers_cache_size` may be given for entries of this size. */
  predicate ChunkFits(size: Uint32, chunk: Uint32) {
    1 <= chunk && size * chunk < WORD
  }

  /** A new block holds the entries counted for it exactly for the chunk sizes that fit. */
  lemma BlockHoldsItsEntries(size: Uint32, chunk: Uint32)
    requires 0 < size
    ensures HoldsEntries(size, chunk) <==> ChunkFits(size, chunk)
  {
    if chunk == 0 {
      assert Entries(chunk) == WORD;
      assert WORD * size >= WORD;
    } else {
      assert Entries(chunk) == chunk;
    }
  }

  lemma EntryInsideBlock(size: Uint32, chunk: Uint32, i: nat)
    requires HoldsEntries(size, chunk) && i < Entries(chunk)
    ensures (i + 1) * size <= BlockBytes(size, chunk)
  {
    MonotoneProduct(i + 1, Entries(chunk), size);
  }

  /** Different entries of one block take disjoint byte ranges. */
  lemma EntriesDoNotOverlap(size: nat, i: nat, j: nat)
    requires i != j
    ensures (i + 1) * size <= j * size || (j + 1) * size <= i * size
  {
    if i < j {
      MonotoneProduct(i + 1, j, size);
    } else {
      MonotoneProduct(j + 1, i, size);
    }
  }

  lemma MonotoneProduct(a: nat, b: nat, size: nat)
    requires a <= b
    ensures a * size <= b * size
  {
  }

  /** The entries of all blocks. */
  function Total(blocks: seq<Uint32>): nat {
    if blocks == [] then 0 else Total(blocks[..|blocks| - 1]) + Entries(blocks[|blocks| - 1])
  }

  lemma TotalOfAppend(blocks: seq<Uint32>, n: Uint32)
    ensures Total(blocks + [n]) == Total(blocks) + Entries(n)
  {
    assert (blocks + [n])[..|blocks|] == blocks;
  }

  /** A slot that has been handed out at least once: the last block is handed out from its end. */
  predicate HandedOut(blocks: seq<Uint32>, free: nat, s: Slot) {
    && s.block < |blocks|
    && s.index < Entries(blocks[s.block])
    && (s.block == |blocks| - 1 ==> free <= s.index)
  }

  ghost predicate Slots(blocks: seq<Uint32>, free: nat, inUse: set<Slot>, reuse: seq<Slot>) {
    forall s :: HandedOut(blocks, free, s) <==> s in inUse || s in reuse
  }

  /** Every entry handed out is either in use or on the reuse list, never both, and the counts add up. */
  ghost predicate Partition(blocks: seq<Uint32>, free: nat, inUse: set<Slot>, reuse: seq<Slot>) {
    && (blocks == [] ==> free == 0)
    && (blocks != [] ==> free < Entries(blocks[|blocks| - 1]))
    && Distinct(reuse)
    && Slots(blocks, free, inUse, reuse)
    && (forall s :: s in reuse ==> s !in inUse)
    && |inUse| + |reuse| + free == Total(blocks)
  }

  /** Reusing the entry freed last. */
  lemma ReuseOne(blocks: seq<Uint32>, free: nat, inUse: set<Slot>, reuse: seq<Slot>)
    requires Partition(blocks, free, inUse, reuse) && reuse != []
    ensures Partition(blocks, free, inUse + {reuse[0]}, reuse[1..]) && reuse[0] !in inUse
  {
    MembersOfTail(reuse);
  }

  /** Handing out the next entry of the last block adds that slot alone. */
  lemma NextEntry(blocks: seq<Uint32>, free: nat, inUse: set<Slot>)
    requires Partition(blocks, free, inUse, []) && free > 0
    ensures blocks != []
    ensures var s := Slot(|blocks| - 1, free - 1); Partition(blocks, free - 1, inUse + {s}, []) && s !in inUse
  {
    var s := Slot(|blocks| - 1, free - 1);
    assert !HandedOut(blocks, free, s);
    assert forall t :: HandedOut(blocks, free - 1, t) <==> HandedOut(blocks, free, t) || t == s;
  }

  /** Opening a new block once the last is used up adds its last entry alone. */
  lemma FirstEntryOfBlock(blocks: seq<Uint32>, chunk: Uint32, inUse: set<Slot>)
    requires Partition(blocks, 0, inUse, [])
    ensures var s := Slot(|blocks|, FreshFree(chunk));
      Partition(blocks + [chunk], FreshFree(chunk), inUse + {s}, []) && s !in inUse
  {
    var s := Slot(|blocks|, FreshFree(chunk));
    assert !HandedOut(blocks, 0, s);
    SlotsOfNewBlock(blocks, chunk, inUse);
    TotalOfAppend(blocks, chunk);
  }

  lemma SlotsOfNewBlock(blocks: seq<Uint32>, chunk: Uint32, inUse: set<Slot>)
    requires Slots(blocks, 0, inUse, [])
    ensures Slots(blocks + [chunk], FreshFree(chunk), inUse + {Slot(|blocks|, FreshFree(chunk))}, [])
  {
    forall t
      ensures HandedOut(blocks + [chunk], FreshFree(chunk), t) <==>
              HandedOut(blocks, 0, t) || t == Slot(|blocks|, FreshFree(chunk))
    {
      if t.block < |blocks| {
        assert (blocks + [chunk])[t.block] == blocks[t.block];
      }
    }
  }

  /** Giving an entry back moves it to the head of the reuse list. */
  lemma GiveBack(blocks: seq<Uint32>, free: nat, inUse: set<Slot>, reuse: seq<Slot>, s: Slot)
    requires Partition(blocks, free, inUse, reuse) && s in inUse
    ensures Partition(blocks, free, inUse - {s}, [s] + reuse)
  {
  }

  lemma MembersOfTail<T>(list: seq<T>)
    requires list != [] && Distinct(list)
    ensures Distinct(list[1..])
    ensures forall x :: x in list <==> x == list[0] || x in list[1..]
    ensures list[0] !in list[1..]
  {
    assert list == [list[0]] + list[1..];
  }

  // ---- The reuse list, threaded through the headers ----

  predicate Threaded(head: Link, headers: map<Slot, Link>, list: seq<Slot>)
    decreases list
  {
    if list == [] then
      head == End
    else
      head == To(list[0]) && list[0] in headers && Threaded(headers[list[0]], headers, list[1..])
  }

  /** Writing the header of an entry that is not on the list leaves the list alone. */
  lemma {:induction false} ThreadedElsewhere(head: Link, headers: map<Slot, Link>, list: seq<Slot>, s: Slot, link: Link)
    requires Threaded(head, headers, list) && s !in list
    ensures Threaded(head, headers[s := link], list)
    decreases list
  {
    if list != [] {
      ThreadedElsewhere(headers[list[0]], headers, list[1..], s, link);
    }
  }

  /** The state of a cache as its clients see it. */
  class Cache {
    const objectSize: Uint32
    const options: CacheOptions
    var referenceCount: nat
    var reuseList: Link
    var headers: map<Slot, Link>
    var blocks: seq<Uint32>
    var max: nat
    var free: nat
    var used: nat
    var usedObjs: nat
    var chunkSize: Uint32
    var next: Cache?
    var prev: Cache?
    ghost var inUse: set<Slot>
    ghost var reuse: seq<Slot>

    ghost predicate Valid()
      reads `reuseList, `headers, `blocks, `max, `free, `used, `usedObjs, `inUse, `reuse
    {
      && used == |blocks| <= max
      && Threaded(reuseList, headers, reuse)
      && Partition(blocks, free, inUse, reuse)
      && usedObjs == |inUse|
    }

    /** Every block is as large as its entries. */
    predicate BlocksHold()
      reads `blocks
    {
      forall b :: 0 <= b < |blocks| ==> HoldsEntries(objectSize, blocks[b])
    }

    /** `Valid`, after an entry has left the lists and before it is counted. */
    ghost predicate Taken(s: Slot)
      reads `reuseList, `headers, `blocks, `max, `free, `used, `usedObjs, `inUse, `reuse
    {
      && used == |blocks| <= max
      && Threaded(reuseList, headers, reuse)
      && Partition(blocks, free, inUse + {s}, reuse)
      && usedObjs == |inUse| && s !in inUse
    }

    /** Links and the reference count have no part in `Valid`. */
    twostate lemma StaysValid()
      requires old(Valid())
      requires unchanged(`reuseList, `headers, `blocks, `max, `free, `used, `usedObjs, `inUse, `reuse)
      ensures Valid()
    {
    }

    constructor (size: Uint32, options: CacheOptions)
      ensures Valid() && inUse == {} && reuse == [] && blocks == []
      ensures objectSize == size && this.options == options && referenceCount == 0
      ensures chunkSize == BLOCK_ENTRIES && next == null && prev == null
    {
      objectSize, this.options := size, options;
      referenceCount, reuseList, headers, blocks := 0, End, map[], [];
      max, free, used, usedObjs, chunkSize := 0, 0, 0, 0, BLOCK_ENTRIES;
      next, prev := null, null;
      inUse, reuse := {}, [];
    }

    method TakeReused() returns (s: Slot)
      requires Valid() && reuse != []
      modifies this`reuseList, this`reuse
      ensures Taken(s) && s == old(reuse[0]) && reuse == old(reuse[1..])
    {
      s := reuseList.slot;
      ReuseOne(blocks, free, inUse, reuse);
      reuseList := headers[s];
      reuse := reuse[1..];
    }

    method TakeNext() returns (s: Slot)
      requires Valid() && reuse == [] && free > 0
      modifies this`free
      ensures Taken(s) && s == Slot(|blocks| - 1, free) && free == old(free) - 1
    {
      NextEntry(blocks, free, inUse);
      free := free - 1;
      s := Slot(used - 1, free);
    }

    method OpenBlock() returns (s: Slot)
      requires Valid() && reuse == [] && free == 0
      modifies this`blocks, this`max, this`free, this`used
      ensures Taken(s) && s == Slot(|blocks| - 1, free)
      ensures blocks == old(blocks) + [chunkSize] && free == FreshFree(chunkSize)
    {
      if used == max {
        max := max * 4 + 3;
      }
      FirstEntryOfBlock(blocks, chunkSize, inUse);
      blocks := blocks + [chunkSize];
      used := used + 1;
      free := FreshFree(chunkSize);
      s := Slot(used - 1, free);
    }

    method CountOne(s: Slot)
      requires Taken(s)
      modifies this`usedObjs, this`inUse
      ensures Valid() && inUse == old(inUse) + {s} && s !in old(inUse)
    {
      usedObjs := usedObjs + 1;
      inUse := inUse + {s};
    }

    /** `ers_obj_alloc_entry`, the cache's part. */
    method Take() returns (s: Slot)
      requires Valid()
      modifies this`reuseList, this`blocks, this`max, this`free, this`used, this`usedObjs, this`inUse, this`reuse
      ensures Valid()
      ensures s !in old(inUse) && inUse == old(inUse) + {s}
      ensures old(reuse) != [] ==>
              s == old(reuse[0]) && reuse == old(reuse[1..]) && free == old(free) && blocks == old(blocks)
      ensures old(reuse) == [] ==> reuse == [] && s == Slot(|blocks| - 1, free)
      ensures old(reuse) == [] && old(free) > 0 ==> blocks == old(blocks) && free == old(free) - 1
      ensures old(reuse) == [] && old(free) == 0 ==>
                blocks == old(blocks) + [chunkSize] && free == FreshFree(chunkSize)
    {
      if reuseList.To? {
        s := TakeReused();
      } else if free > 0 {
        s := TakeNext();
      } else {
        s := OpenBlock();
      }
      CountOne(s);
    }

    /** `ers_obj_free_entry`, the cache's part: the caller gives back an entry it holds. */
    method Give(s: Slot)
      requires Valid()
      requires s in inUse
      modifies this`reuseList, this`headers, this`usedObjs, this`inUse, this`reuse
      ensures Valid()
      ensures inUse == old(inUse) - {s} && reuse == [s] + old(reuse)
    {
      ThreadedElsewhere(reuseList, headers, reuse, s, reuseList);
      GiveBack(blocks, free, inUse, reuse, s);
      headers := headers[s := reuseList];
      reuseList := To(s);
      reuse := [s] + reuse;
      usedObjs := usedObjs - 1;
      inUse := inUse - {s};
    }

    /** `ers_cache_size`: later blocks get the new size; what is handed out stays as it is. */
    method SetChunkSize(size: Uint32)
      requires Valid()
      modifies this`chunkSize
      ensures Valid() && chunkSize == size
    {
      chunkSize := size;
    }
  }
}
