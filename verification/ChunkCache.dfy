/** The memory cache of file chunks: two budgets, and write-back chunks that are never
    dropped before they are flushed. */
module ChunkCache {
  import opened Common

  datatype Key = Key(connection: string, file: string, index: nat)

  /** A held chunk: its bytes, whether they still have to be written back, its last use. */
  datatype Entry = Entry(data: bytes, dirty: bool, tick: nat)

  type Chunks = map<Key, Entry>

  function Size(): Entry -> nat { (e: Entry) => |e.data| }

  /** More chunks or more bytes than allowed. */
  ghost predicate Over(m: Chunks, maxChunks: nat, maxBytes: nat) { |m| > maxChunks || Sum(m, Size()) > maxBytes }

  /** The ticks tell the chunks apart. */
  ghost predicate TicksApart(m: Chunks, clock: nat) {
    && (forall k :: k in m ==> m[k].tick <= clock)
    && (forall j, k :: j in m && k in m && j != k ==> m[j].tick != m[k].tick)
  }

  /** A chunk that eviction may take to make room for `key`. */
  predicate Evictable(m: Chunks, key: Key, k: Key) { k in m && !m[k].dirty && k != key }

  /** Only evictable chunks went, the least recently used first. */
  ghost predicate OldestFirst(before: Chunks, key: Key, gone: set<Key>) {
    && (forall k :: k in gone ==> Evictable(before, key, k))
    && (forall j, k :: j in gone && Evictable(before, key, k) && k !in gone ==> before[j].tick < before[k].tick)
  }

  ghost predicate NewestGone(before: Chunks, key: Key, gone: set<Key>, j: Key) {
    && j in gone && Evictable(before, key, j)
    && forall k :: k in gone && Evictable(before, key, k) ==> before[k].tick <= before[j].tick
  }

  /** The newest chunk that went was still in excess of a limit. */
  ghost predicate WasNeeded(before: Chunks, key: Key, gone: set<Key>, maxChunks: nat, maxBytes: nat) {
    gone != {} ==> exists j :: NewestGone(before, key, gone, j) && Over(before - (gone - {j}), maxChunks, maxBytes)
  }

  /** Eviction ends within both limits or when nothing evictable is left. */
  ghost predicate Stopped(before: Chunks, key: Key, gone: set<Key>, maxChunks: nat, maxBytes: nat) {
    Over(before - gone, maxChunks, maxBytes) ==> forall k :: Evictable(before, key, k) ==> k in gone
  }

  ghost predicate Evicted(before: Chunks, key: Key, gone: set<Key>, maxChunks: nat, maxBytes: nat) {
    OldestFirst(before, key, gone) && WasNeeded(before, key, gone, maxChunks, maxBytes)
    && Stopped(before, key, gone, maxChunks, maxBytes)
  }

  /** Fewer chunks weigh less. */
  lemma {:induction false} SumWithin(m: Chunks, gone: set<Key>)
    ensures Sum(m - gone, Size()) <= Sum(m, Size()) && |m - gone| <= |m|
    decreases |gone|
  {
    hide Sum, Size;
    if gone == {} {
      assert m - gone == m;
    } else {
      var k :| k in gone;
      var rest := gone - {k};
      SumWithin(m, rest);
      SumWithout(m - rest, k);
      OneByOne(m, gone, k);
    }
  }

  lemma OneByOne(m: Chunks, gone: set<Key>, k: Key)
    requires k in gone
    ensures m - gone == (m - (gone - {k})) - {k}
  {
  }

  lemma SumWithout(m: Chunks, k: Key)
    ensures Sum(m - {k}, Size()) <= Sum(m, Size()) && |m - {k}| <= |m|
  {
    hide Sum, Size;
    if k in m {
      SumRemove(m, k, Size());
      OneLess(m, k);
    } else {
      assert m - {k} == m;
    }
  }

  lemma OneLess(m: Chunks, k: Key)
    requires k in m
    ensures |m| == |m - {k}| + 1
  {
  }

  /** More chunks gone, less over. */
  lemma OverLess(m: Chunks, less: set<Key>, more: set<Key>, maxChunks: nat, maxBytes: nat)
    requires less <= more && Over(m - more, maxChunks, maxBytes)
    ensures Over(m - less, maxChunks, maxBytes)
  {
    assert (m - less) - more == m - more;
    SumWithin(m - less, more);
  }

  /** The rules leave eviction no choice. */
  lemma EvictionIsDetermined(before: Chunks, key: Key, a: set<Key>, b: set<Key>, maxChunks: nat, maxBytes: nat)
    requires Evicted(before, key, a, maxChunks, maxBytes) && Evicted(before, key, b, maxChunks, maxBytes)
    ensures a == b
  {
    NotMore(before, key, a, b, maxChunks, maxBytes);
    NotMore(before, key, b, a, maxChunks, maxBytes);
  }

  lemma NotMore(before: Chunks, key: Key, a: set<Key>, b: set<Key>, maxChunks: nat, maxBytes: nat)
    requires Evicted(before, key, a, maxChunks, maxBytes) && Evicted(before, key, b, maxChunks, maxBytes)
    ensures b <= a
  {
    hide Over;
    if v :| v in b && v !in a {
      assert Evictable(before, key, v);
      assert !Over(before - a, maxChunks, maxBytes);
      var j :| NewestGone(before, key, b, j) && Over(before - (b - {j}), maxChunks, maxBytes);
      assert j !in a;
      forall k | k in a ensures k in b - {j} {
        assert Evictable(before, key, k);
      }
      OverLess(before, a, b - {j}, maxChunks, maxBytes);
    }
  }

  /** The whole of a put: the chunk is stored, others are evicted, and a clean chunk that still
      does not fit is not kept. */
  function Stored(before: Chunks, key: Key, e: Entry, gone: set<Key>, dropped: bool): Chunks {
    (if dropped then before[key := e] - {key} else before[key := e]) - gone
  }

  ghost predicate PutChunk(before: Chunks, key: Key, e: Entry, gone: set<Key>, dropped: bool, maxChunks: nat,
      maxBytes: nat)
  {
    && Evicted(before[key := e], key, gone, maxChunks, maxBytes)
    && dropped == (!e.dirty && Over(before[key := e] - gone, maxChunks, maxBytes))
  }

  /** What callers rely on: dirty chunks stay, nothing else changes its bytes, a put within the
      limits evicts nothing, and one that ends over a limit leaves only dirty chunks, which
      must be flushed first. */
  lemma PutPromises(before: Chunks, key: Key, e: Entry, gone: set<Key>, dropped: bool, maxChunks: nat, maxBytes: nat)
    requires PutChunk(before, key, e, gone, dropped, maxChunks, maxBytes)
    ensures var after := Stored(before, key, e, gone, dropped);
      && (forall k :: k in before && k != key && before[k].dirty ==> k in after && after[k] == before[k])
      && (forall k :: k in after && k != key ==> k in before && after[k] == before[k])
      && (key in after ==> after[key] == e) && (e.dirty ==> key in after)
      && (Over(after, maxChunks, maxBytes) ==> forall k :: k in after ==> after[k].dirty)
      && (!Over(before[key := e], maxChunks, maxBytes) ==> after == before[key := e])
  {
    hide Over;
    var all := before[key := e];
    var after := Stored(before, key, e, gone, dropped);
    assert forall k :: k in gone ==> Evictable(all, key, k);
    if Over(after, maxChunks, maxBytes) { OverStored(before, key, e, gone, dropped, maxChunks, maxBytes); }
    if !Over(all, maxChunks, maxBytes) { NoneGone(all, key, gone, maxChunks, maxBytes); }
  }

  lemma OverStored(before: Chunks, key: Key, e: Entry, gone: set<Key>, dropped: bool, maxChunks: nat, maxBytes: nat)
    requires PutChunk(before, key, e, gone, dropped, maxChunks, maxBytes)
    requires Over(Stored(before, key, e, gone, dropped), maxChunks, maxBytes)
    ensures forall k :: k in Stored(before, key, e, gone, dropped) ==> Stored(before, key, e, gone, dropped)[k].dirty
  {
  }

  lemma NoneGone(all: Chunks, key: Key, gone: set<Key>, maxChunks: nat, maxBytes: nat)
    requires Evicted(all, key, gone, maxChunks, maxBytes) && !Over(all, maxChunks, maxBytes)
    ensures gone == {} && all - gone == all && !Over(all - gone, maxChunks, maxBytes)
  {
    hide Over;
    assert all - {} == all;
    if gone != {} {
      var j :| NewestGone(all, key, gone, j) && Over(all - (gone - {j}), maxChunks, maxBytes);
      OverLess(all, {}, gone - {j}, maxChunks, maxBytes);
    }
  }

  lemma StoredAs(before: Chunks, key: Key, e: Entry, gone: set<Key>)
    ensures before[key := e] - gone == Stored(before, key, e, gone, false)
    ensures (before[key := e] - gone) - {key} == Stored(before, key, e, gone, true)
  {
  }

  // ---- the cache ----

  /** The running total is exact, ticks are unique, and chunks hold what was last put. */
  ghost predicate Fine(m: Chunks, total: nat, clock: nat, last: map<Key, bytes>) {
    && total == Sum(m, Size()) && TicksApart(m, clock)
    && forall k :: k in m ==> k in last && m[k].data == last[k]
  }

  lemma FineLess(m: Chunks, total: nat, clock: nat, last: map<Key, bytes>, k: Key)
    requires Fine(m, total, clock, last) && k in m
    ensures |m[k].data| <= total && Fine(m - {k}, total - |m[k].data|, clock, last) && |m - {k}| < |m|
  {
    hide Sum;
    SumRemove(m, k, Size());
    OneLess(m, k);
  }

  lemma FinePut(m: Chunks, total: nat, clock: nat, last: map<Key, bytes>, key: Key, e: Entry)
    requires Fine(m, total, clock, last) && e.tick == clock + 1
    ensures key in m ==> |m[key].data| <= total
    ensures Fine(m[key := e], total + |e.data| - (if key in m then |m[key].data| else 0), clock + 1,
                 last[key := e.data])
  {
    hide Sum;
    SumUpdate(m, key, e, Size());
    if key in m { SumRemove(m, key, Size()); }
  }

  lemma FineChange(m: Chunks, total: nat, clock: nat, last: map<Key, bytes>, key: Key, e: Entry, now: nat)
    requires Fine(m, total, clock, last) && key in m && e.data == m[key].data
    requires (e.tick == clock + 1 && now == clock + 1) || (e.tick == m[key].tick && now == clock)
    ensures Fine(m[key := e], total, now, last)
  {
    hide Sum;
    SumUpdate(m, key, e, Size());
    SumRemove(m, key, Size());
  }

  class ChunkCacheManager {
    const maxChunks: nat
    const maxBytes: nat
    var chunks: Chunks
    var total: nat
    var clock: nat
    /** The last bytes put under each key. */
    ghost var last: map<Key, bytes>

    ghost predicate Valid() reads this { Fine(chunks, total, clock, last) }

    constructor (maxChunks: nat, maxBytes: nat)
      ensures Valid() && chunks == map[] && this.maxChunks == maxChunks && this.maxBytes == maxBytes
    {
      this.maxChunks, this.maxBytes, chunks, total, clock, last := maxChunks, maxBytes, map[], 0, 0, map[];
    }

    method GetChunk(key: Key) returns (r: Option<bytes>)
      requires Valid()
      modifies this`chunks, this`clock
      ensures Valid()
      ensures r == if key in old(chunks) then Some(last[key]) else None
      ensures chunks ==
        if key in old(chunks) then old(chunks)[key := old(chunks)[key].(tick := old(clock) + 1)] else old(chunks)
    {
      hide Fine, Sum;
      if key !in chunks { return None; }
      FineChange(chunks, total, clock, last, key, chunks[key].(tick := clock + 1), clock + 1);
      LastPut(this, key);
      clock := clock + 1;
      chunks := chunks[key := chunks[key].(tick := clock)];
      r := Some(chunks[key].data);
    }

    method PutChunkChecked(key: Key, data: bytes, dirty: bool)
      returns (fits: bool, ghost gone: set<Key>, ghost dropped: bool)
      requires Valid()
      modifies this
      ensures Valid() && clock == old(clock) + 1 && last == old(last)[key := data]
      ensures PutChunk(old(chunks), key, Entry(data, dirty, clock), gone, dropped, maxChunks, maxBytes)
      ensures chunks == Stored(old(chunks), key, Entry(data, dirty, clock), gone, dropped)
      ensures fits == !Over(chunks, maxChunks, maxBytes)
      ensures !fits ==> forall k :: k in chunks ==> chunks[k].dirty
    {
      hide Sum, Fine, Over, Evicted;
      var e := Entry(data, dirty, clock + 1);
      Hold(key, e);
      gone := EvictClean(key);
      dropped := DropUnfit(key, dirty);
      StoredAs(old(chunks), key, e, gone);
      if Over(chunks, maxChunks, maxBytes) { OverStored(old(chunks), key, e, gone, dropped, maxChunks, maxBytes); }
      WithinLimits(this);
      fits := |chunks| <= maxChunks && total <= maxBytes;
    }

    /** Puts the chunk in, in place of an older one. */
    method Hold(key: Key, e: Entry)
      requires Valid() && e.tick == clock + 1
      modifies this
      ensures Valid() && chunks == old(chunks)[key := e] && last == old(last)[key := e.data] && clock == old(clock) + 1
    {
      hide Sum, Fine;
      FinePut(chunks, total, clock, last, key, e);
      if key in chunks {
        total := SatSub(total, |chunks[key].data|);
      }
      clock := clock + 1;
      chunks := chunks[key := e];
      last := last[key := e.data];
      total := total + |e.data|;
    }

    /** A clean chunk that still does not fit is not kept. */
    method DropUnfit(key: Key, dirty: bool) returns (dropped: bool)
      requires Valid() && key in chunks
      modifies this`chunks, this`total
      ensures Valid() && dropped == (!dirty && Over(old(chunks), maxChunks, maxBytes))
      ensures chunks == if dropped then old(chunks) - {key} else old(chunks)
    {
      hide Sum, Fine, Over;
      WithinLimits(this);
      dropped := !dirty && (|chunks| > maxChunks || total > maxBytes);
      if dropped {
        FineLess(chunks, total, clock, last, key);
        total := SatSub(total, |chunks[key].data|);
        chunks := chunks - {key};
      }
    }

    method EvictClean(key: Key) returns (ghost gone: set<Key>)
      requires Valid() && key in chunks
      modifies this`chunks, this`total
      ensures Valid() && chunks == old(chunks) - gone && key in chunks
      ensures Evicted(old(chunks), key, gone, maxChunks, maxBytes)
    {
      hide Sum, Fine, Over, OldestFirst, WasNeeded;
      gone := {};
      ghost var before := chunks;
      assert chunks == before - gone;
      NothingGone(before, key, maxChunks, maxBytes);
      while |chunks| > maxChunks || total > maxBytes
        invariant Valid() && chunks == before - gone && key in chunks
        invariant OldestFirst(before, key, gone) && WasNeeded(before, key, gone, maxChunks, maxBytes)
        decreases |chunks|
      {
        WithinLimits(this);
        var victim := Oldest(chunks, key, total, clock, last);
        if victim.None? {
          assert forall k :: Evictable(before, key, k) && k !in gone ==> Evictable(chunks, key, k);
          return;
        }
        var k := victim.value;
        EvictedMore(before, key, gone, k, maxChunks, maxBytes);
        FineLess(chunks, total, clock, last, k);
        total := SatSub(total, |chunks[k].data|);
        assert (before - gone) - {k} == before - (gone + {k});
        chunks := chunks - {k};
        gone := gone + {k};
      }
      WithinLimits(this);
    }

    predicate IsOverBudget()
      requires Valid()
      reads this
      ensures IsOverBudget() == Over(chunks, maxChunks, maxBytes)
    {
      |chunks| > maxChunks || total > maxBytes
    }

    method MarkClean(key: Key)
      requires Valid()
      modifies this`chunks
      ensures Valid()
      ensures chunks ==
        if key in old(chunks) then old(chunks)[key := old(chunks)[key].(dirty := false)] else old(chunks)
    {
      if key in chunks {
        FineChange(chunks, total, clock, last, key, chunks[key].(dirty := false), clock);
        chunks := chunks[key := chunks[key].(dirty := false)];
      }
    }

    method InvalidateFile(connection: string, file: string)
      requires Valid()
      modifies this`chunks, this`total
      ensures Valid()
      ensures chunks == old(chunks) - set k | k in old(chunks) && k.connection == connection && k.file == file
    {
      hide Sum;
      var doomed := set k | k in chunks && k.connection == connection && k.file == file;
      var freed := FreeAll(doomed);
      total := SatSub(total, freed);
    }

    method FreeAll(doomed: set<Key>) returns (freed: nat)
      requires doomed <= chunks.Keys
      modifies this`chunks
      ensures chunks == old(chunks) - doomed && freed + Sum(chunks, Size()) == Sum(old(chunks), Size())
    {
      hide Sum;
      freed := 0;
      var rest := doomed;
      assert chunks == old(chunks) - (doomed - rest);
      while rest != {}
        invariant rest <= doomed && chunks == old(chunks) - (doomed - rest)
        invariant freed + Sum(chunks, Size()) == Sum(old(chunks), Size())
        decreases |rest|
      {
        var k :| k in rest;
        SumRemove(chunks, k, Size());
        freed := freed + |chunks[k].data|;
        assert (old(chunks) - (doomed - rest)) - {k} == old(chunks) - (doomed - (rest - {k}));
        rest := rest - {k};
        chunks := chunks - {k};
      }
      assert doomed - rest == doomed;
    }
  }

  /** The stored counts tell whether a limit is exceeded. */
  lemma WithinLimits(c: ChunkCacheManager)
    requires c.Valid()
    ensures Over(c.chunks, c.maxChunks, c.maxBytes) <==> |c.chunks| > c.maxChunks || c.total > c.maxBytes
  {
  }

  lemma LastPut(c: ChunkCacheManager, key: Key)
    requires c.Valid() && key in c.chunks
    ensures key in c.last && c.chunks[key].data == c.last[key]
  {
  }

  lemma NothingGone(before: Chunks, key: Key, maxChunks: nat, maxBytes: nat)
    ensures OldestFirst(before, key, {}) && WasNeeded(before, key, {}, maxChunks, maxBytes)
  {
  }

  ghost predicate IsOldest(m: Chunks, key: Key, victim: Key) {
    Evictable(m, key, victim) && forall k :: Evictable(m, key, k) && k != victim ==> m[victim].tick < m[k].tick
  }

  /** Taking the least recently used evictable chunk while over a limit. */
  lemma EvictedMore(before: Chunks, key: Key, gone: set<Key>, victim: Key, maxChunks: nat, maxBytes: nat)
    requires OldestFirst(before, key, gone) && Over(before - gone, maxChunks, maxBytes)
    requires IsOldest(before - gone, key, victim)
    ensures OldestFirst(before, key, gone + {victim}) && WasNeeded(before, key, gone + {victim}, maxChunks, maxBytes)
  {
    hide Over;
    var m, more := before - gone, gone + {victim};
    assert more - {victim} == gone && Evictable(before, key, victim);
    forall j, k | j in more && Evictable(before, key, k) && k !in more
      ensures before[j].tick < before[k].tick
    {
      assert Evictable(m, key, k);
    }
    assert NewestGone(before, key, more, victim);
  }

  /** The least recently used evictable chunk. */
  method Oldest(m: Chunks, key: Key, ghost total: nat, ghost clock: nat,
      ghost last: map<Key, bytes>) returns (victim: Option<Key>)
    requires Fine(m, total, clock, last)
    ensures victim.None? <==> forall k :: k in m ==> !Evictable(m, key, k)
    ensures victim.Some? ==> IsOldest(m, key, victim.value)
  {
    victim := None;
    var rest := m.Keys;
    while rest != {}
      invariant rest <= m.Keys
      invariant victim.None? ==> forall k :: k in m && k !in rest ==> !Evictable(m, key, k)
      invariant victim.Some? ==> Evictable(m, key, victim.value) && victim.value !in rest
      invariant victim.Some? ==>
        forall k :: Evictable(m, key, k) && k !in rest && k != victim.value ==> m[victim.value].tick < m[k].tick
      decreases |rest|
    {
      var k :| k in rest;
      rest := rest - {k};
      if Evictable(m, key, k) && (victim.None? || m[k].tick < m[victim.value].tick) {
        victim := Some(k);
      }
    }
  }
}
