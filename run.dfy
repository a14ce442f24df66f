/** Running a list of tasks one after another, and in chunks, for any step
    function: the structure of the task loop of `buildIiifCollectionPages`
    (packages/lib/iiif.js), apart from what one task does. */
module TaskRun {
  import opened Chunking
  import opened Json

  /** The state after the tasks `xs`, taken in order. */
  function Run<S, T>(step: (S, T) -> S, s: S, xs: seq<T>): S {
    if xs == [] then s else step(Run(step, s, xs[..|xs| - 1]), xs[|xs| - 1])
  }

  /** What each of the tasks `xs` yields, each in the state the earlier
      ones left. */
  function Outs<S, T, O>(out: (S, T) -> O, step: (S, T) -> S, s: S, xs: seq<T>): (os: seq<O>)
    ensures |os| == |xs|
  {
    if xs == [] then []
    else Outs(out, step, s, xs[..|xs| - 1]) + [out(Run(step, s, xs[..|xs| - 1]), xs[|xs| - 1])]
  }

  lemma RunSnoc<S, T, O>(out: (S, T) -> O, step: (S, T) -> S, s: S, xs: seq<T>, i: nat)
    requires i < |xs|
    ensures Run(step, s, xs[..i + 1]) == step(Run(step, s, xs[..i]), xs[i])
    ensures Outs(out, step, s, xs[..i + 1]) == Outs(out, step, s, xs[..i]) + [out(Run(step, s, xs[..i]), xs[i])]
  {
    assert xs[..i + 1][..i] == xs[..i];
  }

  /** Running `a` then `b` is running `a + b`. */
  lemma {:induction false} RunAppend<S, T, O>(out: (S, T) -> O, step: (S, T) -> S, s: S, a: seq<T>, b: seq<T>)
    ensures Run(step, s, a + b) == Run(step, Run(step, s, a), b)
    ensures Outs(out, step, s, a + b) == Outs(out, step, s, a) + Outs(out, step, Run(step, s, a), b)
    decreases |b|
  {
    if b == [] {
      assert a + b == a;
    } else {
      var b0 := b[..|b| - 1];
      assert (a + b)[..|a + b| - 1] == a + b0;
      assert (a + b)[|a + b| - 1] == b[|b| - 1];
      RunAppend(out, step, s, a, b0);
    }
  }

  /** The `i`-th result is what task `i` yields after tasks `0..i`. */
  lemma {:induction false} OutsAt<S, T, O>(out: (S, T) -> O, step: (S, T) -> S, s: S, xs: seq<T>, i: nat)
    requires i < |xs|
    ensures Outs(out, step, s, xs)[i] == out(Run(step, s, xs[..i]), xs[i])
  {
    if i < |xs| - 1 {
      var init := xs[..|xs| - 1];
      assert init[..i] == xs[..i] && init[i] == xs[i];
      OutsAt(out, step, s, init, i);
    }
  }

  /** A property every step keeps holds after any run. */
  lemma {:induction false} RunPreserves<S, T>(step: (S, T) -> S, inv: S -> bool, s: S, xs: seq<T>)
    requires inv(s)
    requires forall t, x :: inv(t) ==> inv(step(t, x))
    ensures inv(Run(step, s, xs))
  {
    if xs != [] {
      RunPreserves(step, inv, s, xs[..|xs| - 1]);
    }
  }

  /** `table` with the entry `w` written, if any. */
  function Put<K, V>(table: map<K, V>, w: Option<(K, V)>): map<K, V> {
    if w.Some? then table[w.value.0 := w.value.1] else table
  }

  /** When every step writes at most one entry of a table, the entry written
      by task `i` survives the run unless a later task writes the same key. */
  lemma {:induction false} LastWriteWins<S, T, K, V>(step: (S, T) -> S, table: S -> map<K, V>, write: (S, T) -> Option<(K, V)>,
                                                    s: S, xs: seq<T>, i: nat, k: K, v: V)
    requires forall t, x :: table(step(t, x)) == Put(table(t), write(t, x))
    requires i < |xs| && write(Run(step, s, xs[..i]), xs[i]) == Some((k, v))
    requires forall j :: i < j < |xs| ==>
      write(Run(step, s, xs[..j]), xs[j]).None? || write(Run(step, s, xs[..j]), xs[j]).value.0 != k
    ensures k in table(Run(step, s, xs)) && table(Run(step, s, xs))[k] == v
  {
    var n := |xs| - 1;
    var init := xs[..n];
    var before := Run(step, s, init);
    var w := write(before, xs[n]);
    assert Run(step, s, xs) == step(before, xs[n]);
    assert table(Run(step, s, xs)) == Put(table(before), w);
    if i < n {
      forall j | i < j < |init|
        ensures write(Run(step, s, init[..j]), init[j]).None? || write(Run(step, s, init[..j]), init[j]).value.0 != k
      {
        assert init[..j] == xs[..j] && init[j] == xs[j];
      }
      assert init[..i] == xs[..i] && init[i] == xs[i];
      LastWriteWins(step, table, write, s, init, i, k, v);
      assert w.None? || w.value.0 != k;
    }
  }

  /** What the tasks of each of the first `k` chunks yield, chunk by chunk,
      each chunk starting from the state the earlier chunks left. */
  function ChunkOuts<S, T, O>(out: (S, T) -> O, step: (S, T) -> S, s: S, xs: seq<T>, size: nat, k: nat)
    : (r: seq<seq<O>>)
    requires size >= 1
    ensures |r| == k
  {
    if k == 0 then []
    else
      var before := Run(step, s, Flatten(Chunks(xs, size, k - 1)));
      ChunkOuts(out, step, s, xs, size, k - 1) + [Outs(out, step, before, Chunk(xs, size, k - 1))]
  }

  lemma {:induction false} ChunkOutsFlatten<S, T, O>(out: (S, T) -> O, step: (S, T) -> S, s: S, xs: seq<T>, size: nat, k: nat)
    requires size >= 1
    ensures Flatten(ChunkOuts(out, step, s, xs, size, k)) == Outs(out, step, s, Flatten(Chunks(xs, size, k)))
  {
    if k > 0 {
      var done := Flatten(Chunks(xs, size, k - 1));
      var c := Chunk(xs, size, k - 1);
      ChunkOutsFlatten(out, step, s, xs, size, k - 1);
      FlattenLast(ChunkOuts(out, step, s, xs, size, k - 1), Outs(out, step, Run(step, s, done), c));
      FlattenChunksLast(xs, size, k);
      RunAppend(out, step, s, done, c);
    }
  }

  /** Cutting the tasks into chunks changes nothing they do: the chunks'
      results, joined, are those of the whole list in order, and the chunks
      together end in the same state. */
  lemma ChunkingPreservesRun<S, T, O>(out: (S, T) -> O, step: (S, T) -> S, s: S, xs: seq<T>, size: nat)
    requires size >= 1
    ensures var c := ChunkCount(|xs|, size);
      Flatten(ChunkOuts(out, step, s, xs, size, c)) == Outs(out, step, s, xs)
      && Run(step, s, Flatten(Chunks(xs, size, c))) == Run(step, s, xs)
  {
    ChunksReassemble(xs, size);
    ChunkOutsFlatten(out, step, s, xs, size, ChunkCount(|xs|, size));
  }
}
