/** How `buildIiifCollectionPages` (packages/lib/iiif.js) splits its task
    list: a chunk size of at least one, `max(1, ceil(n / size))` chunks, and
    chunk `ci` is `tasks.slice(ci * size, (ci + 1) * size)`. */
module Chunking {

  function Min(a: int, b: int): int {
    if a <= b then a else b
  }

  /** `Math.max(1, n)` for a configured size or concurrency. */
  function AtLeastOne(n: int): (r: nat)
    ensures r >= 1 && r >= n
    ensures n >= 1 ==> r == n
  {
    if n >= 1 then n else 1
  }

  /** `Math.max(1, Number(setting || 10))` for the chunk size, where a
      setting of 0 is falsy and so stands for "unset". */
  function ChunkSizeSetting(setting: int): (size: nat)
    ensures size >= 1
    ensures setting == 0 ==> size == 10
    ensures setting >= 1 ==> size == setting
    ensures setting < 0 ==> size == 1
  {
    AtLeastOne(if setting == 0 then 10 else setting)
  }

  /** `Math.max(1, Math.ceil(n / size))`. */
  function ChunkCount(n: nat, size: nat): nat
    requires size >= 1
  {
    if n == 0 then 1 else (n + size - 1) / size
  }

  /** The count is the least number of chunks of `size` that hold all `n`
      tasks, and never zero. */
  lemma ChunkCountIsCeiling(n: nat, size: nat)
    requires size >= 1
    ensures var c := ChunkCount(n, size);
      c >= 1 && n <= c * size && (n == 0 || (c - 1) * size < n)
  {
    if n > 0 {
      var c := (n + size - 1) / size;
      var r := (n + size - 1) % size;
      assert n + size - 1 == c * size + r;
      assert 0 <= r < size;
      assert c * size >= n;
      assert (c - 1) * size == c * size - size;
    }
  }

  /** `tasks.slice(ci * size, (ci + 1) * size)`; `slice` clamps both ends
      to the length. */
  function Chunk<T>(tasks: seq<T>, size: nat, ci: nat): (r: seq<T>)
    requires size >= 1
  {
    tasks[Min(ci * size, |tasks|)..Min((ci + 1) * size, |tasks|)]
  }

  lemma ChunkBounds<T>(tasks: seq<T>, size: nat, ci: nat)
    requires size >= 1
    ensures |Chunk(tasks, size, ci)| <= size
    ensures ci * size < |tasks| ==> |Chunk(tasks, size, ci)| >= 1
  {
    assert (ci + 1) * size == ci * size + size;
  }

  /** The first `k` chunks, in order. */
  function Chunks<T>(tasks: seq<T>, size: nat, k: nat): (r: seq<seq<T>>)
    requires size >= 1
    ensures |r| == k
  {
    if k == 0 then [] else Chunks(tasks, size, k - 1) + [Chunk(tasks, size, k - 1)]
  }

  lemma {:induction false} ChunksAt<T>(tasks: seq<T>, size: nat, k: nat, ci: nat)
    requires size >= 1 && ci < k
    ensures Chunks(tasks, size, k)[ci] == Chunk(tasks, size, ci)
  {
    if ci < k - 1 {
      ChunksAt(tasks, size, k - 1, ci);
    }
  }

  function Flatten<T>(ss: seq<seq<T>>): seq<T> {
    if ss == [] then [] else Flatten(ss[..|ss| - 1]) + ss[|ss| - 1]
  }

  lemma FlattenLast<T>(ss: seq<seq<T>>, c: seq<T>)
    ensures Flatten(ss + [c]) == Flatten(ss) + c
  {
    assert (ss + [c])[..|ss|] == ss;
  }

  lemma FlattenChunksLast<T>(tasks: seq<T>, size: nat, k: nat)
    requires size >= 1 && k > 0
    ensures Flatten(Chunks(tasks, size, k)) == Flatten(Chunks(tasks, size, k - 1)) + Chunk(tasks, size, k - 1)
  {
    var ss := Chunks(tasks, size, k);
    assert ss[..k - 1] == Chunks(tasks, size, k - 1);
  }

  lemma PrefixExtend<T>(s: seq<T>, a: seq<T>, b: seq<T>, lo: nat, hi: nat)
    requires lo <= hi <= |s| && a == s[..lo] && b == s[lo..hi]
    ensures a + b == s[..hi]
  {
  }

  /** Chunk `ci` is the slice between offsets `lo` and `lo + size`. */
  lemma ChunkSlice<T>(tasks: seq<T>, size: nat, ci: nat, lo: nat)
    requires size >= 1 && lo == ci * size
    ensures Chunk(tasks, size, ci) == tasks[Min(lo, |tasks|)..Min(lo + size, |tasks|)]
  {
    assert (ci + 1) * size == ci * size + size;
  }

  /** The first `k` chunks cover the tasks up to offset `e`, which is
      `k * size` clamped to the length. */
  lemma {:induction false} FlattenChunks<T>(tasks: seq<T>, size: nat, k: nat, e: nat)
    requires size >= 1 && e == k * size
    ensures Flatten(Chunks(tasks, size, k)) == tasks[..Min(e, |tasks|)]
  {
    if k > 0 {
      var m: nat := (k - 1) * size;
      assert e == m + size by {
        assert k * size == (k - 1) * size + size;
      }
      FlattenChunksLast(tasks, size, k);
      FlattenChunks(tasks, size, k - 1, m);
      ChunkSlice(tasks, size, k - 1, m);
      PrefixExtend(tasks, Flatten(Chunks(tasks, size, k - 1)), Chunk(tasks, size, k - 1),
        Min(m, |tasks|), Min(e, |tasks|));
    }
  }

  /** Chunking loses, repeats and reorders no task: the chunks, joined in
      order, are the task list, and none holds more than `size` tasks. */
  lemma ChunksReassemble<T>(tasks: seq<T>, size: nat)
    requires size >= 1
    ensures var cs := Chunks(tasks, size, ChunkCount(|tasks|, size));
      Flatten(cs) == tasks && forall ci :: 0 <= ci < |cs| ==> |cs[ci]| <= size
  {
    var c := ChunkCount(|tasks|, size);
    ChunkCountIsCeiling(|tasks|, size);
    FlattenChunks(tasks, size, c, c * size);
    assert tasks[..|tasks|] == tasks;
    var cs := Chunks(tasks, size, c);
    forall ci | 0 <= ci < |cs|
      ensures |cs[ci]| <= size
    {
      ChunksAt(tasks, size, c, ci);
      ChunkBounds(tasks, size, ci);
    }
  }

  /** With at least one task every chunk has work; with none there is still
      one (empty) chunk. */
  lemma NoIdleChunk<T>(tasks: seq<T>, size: nat, ci: nat)
    requires size >= 1 && ci < ChunkCount(|tasks|, size)
    ensures |tasks| > 0 ==> |Chunk(tasks, size, ci)| >= 1
    ensures |tasks| == 0 ==> ChunkCount(0, size) == 1 && Chunk(tasks, size, ci) == []
  {
    ChunkCountIsCeiling(|tasks|, size);
    if |tasks| > 0 {
      var c := ChunkCount(|tasks|, size);
      assert ci * size <= (c - 1) * size by {
        assert ci <= c - 1;
        MulMono(ci, c - 1, size);
      }
      ChunkBounds(tasks, size, ci);
    }
  }

  lemma MulMono(a: nat, b: nat, m: nat)
    requires a <= b
    ensures a * m <= b * m
  {
    assert b * m == a * m + (b - a) * m;
  }
}
