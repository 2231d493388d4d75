/**
 * The buffer pool and the poll group's buffer cache as values: what
 * spdk_nvmf_request_free_buffers and spdk_nvmf_request_get_buffers do to them.
 * The cache is a list whose head is taken first; its count is its length.
 * The global pool is an ordered free list: a bulk get takes from its front and
 * either yields every buffer asked for or none, a put appends.
 */
module BufPool {
  import opened NvmfTypes
  import opened Chunks

  datatype BufState = BufState(cache: seq<Addr>, cacheSize: nat, pool: seq<Addr>)

  /** buf_cache_count <= buf_cache_size. */
  predicate CacheBounded(b: BufState)
  {
    |b.cache| <= b.cacheSize
  }

  /** Every buffer the group and the pool hold. */
  function Owned(b: BufState): multiset<Addr>
  {
    multiset(b.cache) + multiset(b.pool)
  }

  function Reverse(s: seq<Addr>): (r: seq<Addr>)
    ensures |r| == |s|
  {
    if s == [] then [] else [s[|s| - 1]] + Reverse(s[..|s| - 1])
  }

  /** Reversal keeps every element. */
  lemma {:induction false} ReverseKeepsElements(s: seq<Addr>)
    ensures multiset(Reverse(s)) == multiset(s)
    decreases |s|
  {
    if s != [] {
      var t := s[..|s| - 1];
      ReverseKeepsElements(t);
      assert s == t + [s[|s| - 1]];
    }
  }

  /** One iteration of free_buffers: to the cache head while it is under capacity, else to the pool. */
  function Release(b: BufState, x: Addr): (v: BufState)
    ensures v.cacheSize == b.cacheSize && |v.cache| + |v.pool| == |b.cache| + |b.pool| + 1
    ensures CacheBounded(b) ==> CacheBounded(v)
  {
    if |b.cache| < b.cacheSize then b.(cache := [x] + b.cache) else b.(pool := b.pool + [x])
  }

  /** free_buffers for the buffers xs, released in order. */
  function ReleaseAll(b: BufState, xs: seq<Addr>): (v: BufState)
    ensures v.cacheSize == b.cacheSize
    decreases |xs|
  {
    if xs == [] then b else Release(ReleaseAll(b, xs[..|xs| - 1]), xs[|xs| - 1])
  }

  /** Releasing keeps the cache within its capacity and loses or invents no buffer. */
  lemma {:induction false} ReleaseAllKeepsBuffers(b: BufState, xs: seq<Addr>)
    ensures ReleaseAll(b, xs).cacheSize == b.cacheSize
    ensures CacheBounded(b) ==> CacheBounded(ReleaseAll(b, xs))
    ensures Owned(ReleaseAll(b, xs)) == Owned(b) + multiset(xs)
    decreases |xs|
  {
    if xs != [] {
      var ys, x := xs[..|xs| - 1], xs[|xs| - 1];
      ReleaseAllKeepsBuffers(b, ys);
      ReleaseAllSnoc(b, xs);
      assert xs == ys + [x];
      var r := ReleaseAll(b, ys);
      assert multiset(xs) == multiset(ys) + multiset{x};
      ReleaseKeepsBuffers(r, x);
      assert Owned(ReleaseAll(b, xs)) == Owned(r) + multiset{x};
    }
  }

  /** One release: the capacity is kept, the bound too, and the group and pool gain x. */
  lemma ReleaseKeepsBuffers(r: BufState, x: Addr)
    ensures Release(r, x).cacheSize == r.cacheSize
    ensures CacheBounded(r) ==> CacheBounded(Release(r, x))
    ensures Owned(Release(r, x)) == Owned(r) + multiset{x}
  {
    if |r.cache| < r.cacheSize {
      ReleaseToCache(r, x);
      assert multiset([x] + r.cache) == multiset{x} + multiset(r.cache);
    } else {
      ReleaseToPool(r, x);
      assert multiset(r.pool + [x]) == multiset(r.pool) + multiset{x};
    }
  }

  /**
   * The outcome of free_buffers in closed form: as many buffers as the cache has room for
   * go to its head (the last one released ends up first), the rest are appended to the pool.
   */
  lemma {:induction false} ReleaseAllShape(b: BufState, xs: seq<Addr>)
    requires CacheBounded(b)
    ensures var c := Min(b.cacheSize - |b.cache|, |xs|);
      ReleaseAll(b, xs) == BufState(Reverse(xs[..c]) + b.cache, b.cacheSize, b.pool + xs[c..])
    decreases |xs|
  {
    if xs != [] {
      var ys := xs[..|xs| - 1];
      ReleaseAllShape(b, ys);
      var room := b.cacheSize - |b.cache|;
      if |ys| < room {
        assert Min(room, |ys|) == |ys| && Min(room, |xs|) == |xs|;
        assert ys[..|ys|] == ys && ys[|ys|..] == [] && xs[..|xs|] == xs && xs[|xs|..] == [];
        ShapeStepCache(b, xs);
      } else {
        assert Min(room, |ys|) == room && Min(room, |xs|) == room;
        ShapeStepPool(b, xs);
      }
    }
  }

  /** One more release while the cache still has room: it goes to the cache head. */
  lemma ShapeStepCache(b: BufState, xs: seq<Addr>)
    requires xs != [] && |xs| - 1 < b.cacheSize - |b.cache|
    requires ReleaseAll(b, xs[..|xs| - 1]) == BufState(Reverse(xs[..|xs| - 1]) + b.cache, b.cacheSize, b.pool)
    ensures ReleaseAll(b, xs) == BufState(Reverse(xs) + b.cache, b.cacheSize, b.pool)
  {
    var ys, x := xs[..|xs| - 1], xs[|xs| - 1];
    ReleaseAllSnoc(b, xs);
    ReverseSnoc(xs);
    ReleaseToCache(ReleaseAll(b, ys), x);
    AppendAssoc([x], Reverse(ys), b.cache);
  }

  /** One more release once the cache is full: it is appended to the pool. */
  lemma ShapeStepPool(b: BufState, xs: seq<Addr>)
    requires xs != [] && b.cacheSize - |b.cache| <= |xs| - 1 && CacheBounded(b)
    requires var room := b.cacheSize - |b.cache|; var ys := xs[..|xs| - 1];
      ReleaseAll(b, ys) == BufState(Reverse(ys[..room]) + b.cache, b.cacheSize, b.pool + ys[room..])
    ensures var room := b.cacheSize - |b.cache|;
      ReleaseAll(b, xs) == BufState(Reverse(xs[..room]) + b.cache, b.cacheSize, b.pool + xs[room..])
  {
    var room := b.cacheSize - |b.cache|;
    var ys, x := xs[..|xs| - 1], xs[|xs| - 1];
    ReleaseAllSnoc(b, xs);
    ReleaseToPool(ReleaseAll(b, ys), x);
    SliceSnoc(xs, room);
    AppendAssoc(b.pool, ys[room..], [x]);
  }

  /** Splitting off the last element of xs, seen from a cut point k before it. */
  lemma SliceSnoc(xs: seq<Addr>, k: nat)
    requires k < |xs|
    ensures xs[..k] == xs[..|xs| - 1][..k]
    ensures xs[k..] == xs[..|xs| - 1][k..] + [xs[|xs| - 1]]
  {
    var ys := xs[..|xs| - 1];
    assert xs == ys + [xs[|xs| - 1]];
    DropSnoc(ys, xs[|xs| - 1], k);
  }

  lemma ReleaseAllSnoc(b: BufState, xs: seq<Addr>)
    requires xs != []
    ensures ReleaseAll(b, xs) == Release(ReleaseAll(b, xs[..|xs| - 1]), xs[|xs| - 1])
  {
  }

  lemma ReverseSnoc(xs: seq<Addr>)
    requires xs != []
    ensures Reverse(xs) == [xs[|xs| - 1]] + Reverse(xs[..|xs| - 1])
  {
  }

  lemma AppendAssoc(a: seq<Addr>, b: seq<Addr>, c: seq<Addr>)
    ensures a + (b + c) == (a + b) + c
  {
  }

  lemma ReleaseToCache(r: BufState, x: Addr)
    requires |r.cache| < r.cacheSize
    ensures Release(r, x) == BufState([x] + r.cache, r.cacheSize, r.pool)
  {
  }

  lemma ReleaseToPool(r: BufState, x: Addr)
    requires |r.cache| >= r.cacheSize
    ensures Release(r, x) == BufState(r.cache, r.cacheSize, r.pool + [x])
  {
  }

  lemma DropSnoc(ys: seq<Addr>, x: Addr, k: nat)
    requires k <= |ys|
    ensures (ys + [x])[k..] == ys[k..] + [x]
  {
    assert |(ys + [x])[k..]| == |ys[k..] + [x]|;
    forall i | 0 <= i < |ys| - k + 1
      ensures (ys + [x])[k..][i] == (ys[k..] + [x])[i]
    {
    }
  }

  /** The result of get_buffers: success, the new cache and pool, and the buffers it took. */
  datatype Take = Take(ok: bool, bufs: BufState, taken: seq<Addr>)

  /**
   * get_buffers for num buffers: drain the cache from its head, then ask the pool for the
   * rest in one bulk call. When that call fails, the buffers taken from the cache are
   * released again through free_buffers (taken then lists them) and nothing is obtained.
   */
  function TakeBuffers(b: BufState, num: nat): (t: Take)
    ensures t.ok <==> num <= |b.cache| + |b.pool|
    ensures t.ok ==> |t.taken| == num
    ensures !t.ok ==> t.taken == b.cache && |b.cache| < num
  {
    var k := Min(num, |b.cache|);
    if num - k <= |b.pool| then
      Take(true, BufState(b.cache[k..], b.cacheSize, b.pool[num - k..]), b.cache[..k] + b.pool[..num - k])
    else
      Take(false, ReleaseAll(BufState([], b.cacheSize, b.pool), b.cache), b.cache)
  }

  /**
   * Cache precedence: the first buffers come from the cache head in cache order, and the
   * pool supplies exactly the remainder from its front; every buffer is accounted for.
   */
  lemma TakeSuccess(b: BufState, num: nat)
    requires num <= |b.cache| + |b.pool|
    ensures var t := TakeBuffers(b, num); var k := Min(num, |b.cache|);
      && t.taken[..k] == b.cache[..k]
      && t.taken[k..] == b.pool[..num - k]
      && t.bufs.cache == b.cache[k..]
      && |t.bufs.cache| == |b.cache| - k
      && t.bufs.pool == b.pool[num - k..]
      && Owned(t.bufs) + multiset(t.taken) == Owned(b)
  {
    var k := Min(num, |b.cache|);
    var t := TakeBuffers(b, num);
    assert b.cache == b.cache[..k] + b.cache[k..];
    assert b.pool == b.pool[..num - k] + b.pool[num - k..];
    assert t.taken[..k] == b.cache[..k];
  }

  /** With enough cached buffers, get_buffers uses the cache alone. */
  lemma TakeFromCacheOnly(b: BufState, num: nat)
    requires num <= |b.cache|
    ensures var t := TakeBuffers(b, num);
      t.ok && t.taken == b.cache[..num] && t.bufs.cache == b.cache[num..] && t.bufs.pool == b.pool
  {
  }

  /**
   * When the pool cannot supply the rest, the cached buffers already taken all return to
   * the cache (in reverse order, each freed one going to the head), the pool is unchanged,
   * and no buffer is lost.
   */
  lemma TakeFailureLeaksNothing(b: BufState, num: nat)
    requires CacheBounded(b) && num > |b.cache| + |b.pool|
    ensures var t := TakeBuffers(b, num);
      && !t.ok
      && t.bufs == BufState(Reverse(b.cache), b.cacheSize, b.pool)
      && Owned(t.bufs) == Owned(b)
      && CacheBounded(t.bufs)
  {
    var e := BufState([], b.cacheSize, b.pool);
    ReleaseAllShape(e, b.cache);
    ReleaseAllKeepsBuffers(e, b.cache);
    assert b.cache[..|b.cache|] == b.cache;
    assert b.cache[|b.cache|..] == [];
  }
}
