/**
 The bounded index-extrema cache of `support/indices.rs`: 32 round-robin exact
 entries over 512 direct-mapped block entries. A lookup is proved to equal a
 fresh scan of the current contents, whatever writes, copies, hash collisions
 and failed allocations came before; the revision in the key plays no part.
 */
module IndexCache {
  import opened Common
  import opened IndexBounds

  const CACHE_SIZE: nat := 32
  const BLOCK_CACHE_SIZE: nat := 512

  datatype IndexBoundsKey =
    IndexBoundsKey(slot: nat, revision: nat, start: nat, end: nat, format: IndexFormat)

  datatype Entry = Entry(key: IndexBoundsKey, bounds: Bounds)

  /** A cached fact about the current contents of its slot. */
  ghost predicate EntrySound(views: seq<seq<byte>>, entry: Entry) {
    && entry.key.slot < |views|
    && entry.key.start <= entry.key.end <= |views[entry.key.slot]|
    && entry.bounds == Scan(views[entry.key.slot][entry.key.start..entry.key.end], entry.key.format)
  }

  function Count(entries: seq<Option<Entry>>): nat {
    if entries == [] then 0
    else Count(entries[..|entries| - 1]) + if entries[|entries| - 1].Some? then 1 else 0
  }

  lemma {:induction false} CountUpdate(entries: seq<Option<Entry>>, k: nat, value: Option<Entry>)
    requires k < |entries|
    ensures Count(entries[k := value])
      == Count(entries) - (if entries[k].Some? then 1 else 0) + (if value.Some? then 1 else 0)
  {
    var n := |entries| - 1;
    if k < n {
      assert entries[k := value][..n] == entries[..n][k := value];
      CountUpdate(entries[..n], k, value);
    } else {
      assert entries[k := value][..n] == entries[..n];
    }
  }

  lemma {:induction false} CountZero(entries: seq<Option<Entry>>)
    requires Count(entries) == 0
    ensures forall k :: 0 <= k < |entries| ==> entries[k].None?
  {
    if entries != [] {
      CountZero(entries[..|entries| - 1]);
    }
  }

  lemma {:induction false} CountNone(n: nat)
    ensures Count(seq(n, _ => None)) == 0
  {
    if n > 0 {
      assert seq<Option<Entry>>(n, _ => None)[..n - 1] == seq(n - 1, _ => None);
      CountNone(n - 1);
    }
  }

  /** Exactly the entries of `slot` are gone. */
  predicate Swept(before: seq<Option<Entry>>, after: seq<Option<Entry>>, slot: nat) {
    |after| == |before| && forall k :: 0 <= k < |before| ==>
      after[k] == if before[k].Some? && before[k].value.key.slot == slot then None else before[k]
  }

  class IndexBoundsCache {
    var entries: seq<Option<Entry>>
    var next: nat
    var blocks: seq<Option<Entry>>
    var blockAllocationFailed: bool
    var live: nat
    /** The bucket of a block key, before reduction; any hash will do. */
    const hash: IndexBoundsKey -> nat
    const canAllocate: bool

    /** Shapes and the live count. */
    ghost predicate Valid()
      reads this
    {
      && |entries| == CACHE_SIZE && next < CACHE_SIZE
      && (|blocks| == 0 || |blocks| == BLOCK_CACHE_SIZE)
      && live == Count(entries) + Count(blocks)
    }

    /** Every stored entry is a fact about `views`. */
    ghost predicate Sound(views: seq<seq<byte>>)
      reads this
    {
      && (forall k :: 0 <= k < |entries| && entries[k].Some? ==> EntrySound(views, entries[k].value))
      && (forall k :: 0 <= k < |blocks| && blocks[k].Some? ==> EntrySound(views, blocks[k].value))
    }

    constructor (hash: IndexBoundsKey -> nat, canAllocate: bool)
      ensures Valid() && forall views :: Sound(views)
    {
      this.hash := hash;
      this.canAllocate := canAllocate;
      entries := seq(CACHE_SIZE, _ => None);
      next := 0;
      blocks := [];
      blockAllocationFailed := false;
      live := 0;
      new;
      CountNone(CACHE_SIZE);
    }

    /** An exact entry has this key. */
    ghost predicate Held(key: IndexBoundsKey)
      reads this
    {
      exists k :: 0 <= k < |entries| && entries[k].Some? && entries[k].value.key == key
    }

    /** The first exact entry with this key. */
    method Get(key: IndexBoundsKey) returns (found: Option<Bounds>)
      requires Valid()
      ensures found.Some? ==> exists k :: 0 <= k < |entries| && entries[k] == Some(Entry(key, found.value))
      ensures found.Some? <==> Held(key)
    {
      var k := 0;
      while k < |entries|
        invariant 0 <= k <= |entries|
        invariant forall j :: 0 <= j < k ==> !(entries[j].Some? && entries[j].value.key == key)
      {
        if entries[k].Some? && entries[k].value.key == key {
          return Some(entries[k].value.bounds);
        }
        k := k + 1;
      }
      return None;
    }

    method Store(key: IndexBoundsKey, bounds: Bounds)
      requires Valid()
      modifies this
      ensures Valid()
      ensures entries == old(entries)[old(next) := Some(Entry(key, bounds))] && blocks == old(blocks)
      ensures next == (old(next) + 1) % 32 && Held(key)
    {
      CountUpdate(entries, next, Some(Entry(key, bounds)));
      if entries[next].None? {
        live := live + 1;
      }
      entries := entries[next := Some(Entry(key, bounds))];
      assert entries[next].Some? && entries[next].value.key == key;
      next := (next + 1) % CACHE_SIZE;
    }

    /**
     Drop every proof about a slot whose contents change; nothing is walked
     while nothing is live. What remains holds of the changed contents.
     */
    method Invalidate(slot: nat, ghost before: seq<seq<byte>>, ghost after: seq<seq<byte>>)
      requires Valid() && Sound(before) && |after| == |before|
      requires forall s :: 0 <= s < |before| && s != slot ==> after[s] == before[s]
      modifies this
      ensures Valid() && Sound(after)
      ensures Swept(old(entries), entries, slot) && Swept(old(blocks), blocks, slot)
    {
      if live == 0 {
        CountZero(entries);
        CountZero(blocks);
        return;
      }
      var dropped;
      entries, dropped := Sweep(entries, slot);
      live := live - dropped;
      blocks, dropped := Sweep(blocks, slot);
      live := live - dropped;
    }

    /** The block entry, only when its full key matches. */
    function Block(key: IndexBoundsKey): (r: Option<Bounds>)
      requires Valid()
      reads this
    {
      if blocks == [] then None
      else
        match blocks[hash(key) % BLOCK_CACHE_SIZE]
        case None => None
        case Some(entry) => if entry.key == key then Some(entry.bounds) else None
    }

    method InsertBlock(key: IndexBoundsKey, bounds: Bounds)
      requires Valid()
      modifies this
      ensures Valid() && entries == old(entries) && next == old(next)
      ensures |blocks| == 512 <==> old(|blocks|) == 512 || (canAllocate && !old(blockAllocationFailed))
      ensures blockAllocationFailed == (old(blockAllocationFailed) || (old(blocks) == [] && !canAllocate))
      ensures blocks != [] ==> Block(key) == Some(bounds)
      ensures forall other :: hash(other) % 512 != hash(key) % 512 ==> Block(other) == old(Block(other))
      ensures forall views :: old(Sound(views)) && EntrySound(views, Entry(key, bounds)) ==> Sound(views)
    {
      if blocks == [] {
        if blockAllocationFailed {
          return;
        }
        if !canAllocate {
          blockAllocationFailed := true;
          return;
        }
        blocks := seq(BLOCK_CACHE_SIZE, _ => None);
        CountNone(BLOCK_CACHE_SIZE);
      }
      var bucket := hash(key) % BLOCK_CACHE_SIZE;
      CountUpdate(blocks, bucket, Some(Entry(key, bounds)));
      if blocks[bucket].None? {
        live := live + 1;
      }
      blocks := blocks[bucket := Some(Entry(key, bounds))];
    }

    /** One whole block, read only when its entry is missing or was evicted. */
    method BlockBounds(block: IndexBoundsKey, views: seq<seq<byte>>) returns (part: Bounds, hit: bool)
      requires Valid() && Sound(views)
      requires block.slot < |views| && block.start <= block.end <= |views[block.slot]|
      requires block.end == block.start + BlockBytes(block.format)
      modifies this
      ensures Valid() && Sound(views)
      ensures part == Scan(views[block.slot][block.start..block.end], block.format)
      ensures hit == old(Block(block)).Some? && (hit ==> blocks == old(blocks))
      ensures entries == old(entries) && next == old(next)
      ensures blocks != [] ==> Block(block) == Some(part)
    {
      var cached := Block(block);
      hit := cached.Some?;
      if cached.Some? {
        return cached.value, hit;
      }
      part := RawIndexBounds(views[block.slot][block.start..block.end], block.format);
      InsertBlock(block, part);
    }

    /** Head up to a block boundary, whole blocks through the block cache, then the tail. */
    method BlockedBounds(key: IndexBoundsKey, views: seq<seq<byte>>) returns (bounds: Bounds)
      requires Valid() && Sound(views)
      requires key.slot < |views| && key.start <= key.end <= |views[key.slot]|
      modifies this
      ensures Valid() && Sound(views)
      ensures bounds == Scan(views[key.slot][key.start..key.end], key.format)
    {
      var end, headEnd := Head(key);
      bounds := ScanRange(key, views[key.slot], key.start, headEnd);
      var cursor;
      bounds, cursor := WholeBlocks(key, views, headEnd, end, bounds);
      var tail := ScanRange(key, views[key.slot], cursor, end);
      ScanAppend(views[key.slot], key.start, cursor, end, key.format);
      bounds := Merge(bounds, tail);
      ScanTail(views[key.slot], key.start, end, key.end, key.format);
    }

    /** Where the whole indices end and where the first block boundary (or the end) lies. */
    method Head(key: IndexBoundsKey) returns (end: nat, headEnd: nat)
      requires key.start <= key.end
      ensures key.start <= headEnd <= end <= key.end
      ensures end == key.end - (key.end - key.start) % Width(key.format)
      ensures Whole(headEnd - key.start, key.format)
    {
      var width := Width(key.format);
      end := key.end - (key.end - key.start) % width;
      var leadingWords := (BLOCK_WORDS - (key.start / width) % BLOCK_WORDS) % BLOCK_WORDS;
      RemainderWhole(key.end - key.start, key.format);
      MultiplesWhole(end - key.start, leadingWords, key.format);
      headEnd := key.start + Min(end - key.start, leadingWords * width);
    }

    /** A part outside the block cache; an empty one is not read. */
    method ScanRange(key: IndexBoundsKey, view: seq<byte>, start: nat, end: nat) returns (bounds: Bounds)
      requires start <= end <= |view|
      ensures bounds == Scan(view[start..end], key.format)
    {
      bounds := None;
      if start != end {
        bounds := RawIndexBounds(view[start..end], key.format);
      }
    }

    method AddBlock(key: IndexBoundsKey, views: seq<seq<byte>>, cursor: nat, end: nat, head: Bounds)
      returns (bounds: Bounds)
      requires Valid() && Sound(views)
      requires key.slot < |views| && key.start <= cursor <= end <= |views[key.slot]|
      requires end == cursor + BlockBytes(key.format)
      requires Whole(cursor - key.start, key.format) && Whole(end - cursor, key.format)
      requires head == Scan(views[key.slot][key.start..cursor], key.format)
      modifies this
      ensures Valid() && Sound(views)
      ensures bounds == Scan(views[key.slot][key.start..end], key.format) && Whole(end - key.start, key.format)
    {
      WholeSum(cursor - key.start, end - cursor, key.format);
      var part, hit := BlockBounds(key.(start := cursor, end := end), views);
      ScanAppend(views[key.slot], key.start, cursor, end, key.format);
      bounds := Merge(head, part);
    }

    method WholeBlocks(key: IndexBoundsKey, views: seq<seq<byte>>, from: nat, end: nat, head: Bounds)
      returns (bounds: Bounds, cursor: nat)
      requires Valid() && Sound(views)
      requires key.slot < |views| && key.start <= from <= end <= |views[key.slot]|
      requires Whole(from - key.start, key.format)
      requires head == Scan(views[key.slot][key.start..from], key.format)
      modifies this
      ensures Valid() && Sound(views)
      ensures from <= cursor <= end && Whole(cursor - key.start, key.format)
      ensures bounds == Scan(views[key.slot][key.start..cursor], key.format)
    {
      bounds, cursor := head, from;
      var blockBytes := BlockBytes(key.format);
      while end - cursor >= blockBytes
        invariant from <= cursor <= end && Whole(cursor - key.start, key.format)
        invariant Valid() && Sound(views)
        invariant bounds == Scan(views[key.slot][key.start..cursor], key.format)
      {
        bounds := AddBlock(key, views, cursor, cursor + blockBytes, bounds);
        cursor := cursor + blockBytes;
      }
    }

    /** The exact cache in front of the blocked scan. */
    method Lookup(key: IndexBoundsKey, views: seq<seq<byte>>) returns (bounds: Bounds)
      requires Valid() && Sound(views)
      requires key.slot < |views| && key.start <= key.end <= |views[key.slot]|
      modifies this
      ensures Valid() && Sound(views)
      ensures bounds == Scan(views[key.slot][key.start..key.end], key.format)
      ensures Held(key)
      ensures old(Held(key)) ==> entries == old(entries) && blocks == old(blocks) && next == old(next)
    {
      var found := Get(key);
      if found.Some? {
        return found.value;
      }
      bounds := BlockedBounds(key, views);
      Store(key, bounds);
    }
  }

  /** Clear the entries of one slot. */
  method Sweep(entries: seq<Option<Entry>>, slot: nat) returns (swept: seq<Option<Entry>>, dropped: nat)
    ensures Count(swept) + dropped == Count(entries) && Swept(entries, swept, slot)
  {
    swept, dropped := entries, 0;
    var k := 0;
    while k < |entries|
      invariant 0 <= k <= |entries| && |swept| == |entries| && Count(swept) + dropped == Count(entries)
      invariant forall j :: k <= j < |entries| ==> swept[j] == entries[j]
      invariant forall j :: 0 <= j < k ==>
        swept[j] == if entries[j].Some? && entries[j].value.key.slot == slot then None else entries[j]
    {
      if swept[k].Some? && swept[k].value.key.slot == slot {
        CountUpdate(swept, k, None);
        swept := swept[k := None];
        dropped := dropped + 1;
      }
      k := k + 1;
    }
  }
}
