/** The blocks that sync tasks cut the task list into, and the dependencies a split allows. */
module ControlBlocks {
  import opened Reachability

  /** Sync tasks at equal distances `size`. */
  ghost predicate EvenlySplit(sync: seq<nat>, size: nat, n: nat) {
    && n > 0 && size != 1
    && (forall i :: 0 <= i < |sync| ==> sync[i] == (i + 1) * size - 1)
    && (forall i :: 0 <= i < |sync| ==> 1 <= sync[i] < n)
  }

  /** The last task is a sync task, behind which an empty block follows. */
  predicate EndsWithSync(sync: seq<nat>, n: nat) {
    sync != [] && sync[|sync| - 1] + 1 == n
  }

  /** First and last task of a block, sync tasks included on both sides. */
  function BlockStart(sync: seq<nat>, block: nat): nat
    requires block <= |sync|
  {
    if block == 0 then 0 else sync[block - 1]
  }

  function BlockEnd(sync: seq<nat>, n: nat, block: nat): nat
    requires block <= |sync| && n > 0
  {
    if block == |sync| then n - 1 else sync[block]
  }

  predicate IsSyncPosition(size: nat, n: nat, t: nat) {
    size != 0 && t + 1 != n && (t + 1) % size == 0
  }

  /** A task depends on its own block only, except that a sync task feeds the next block. */
  ghost predicate RespectsBlocks(deps: Edges, size: nat) {
    size > 0 &&
    forall p, c :: (p, c) in deps ==> c / size == (if (p + 1) % size == 0 then p / size + 1 else p / size)
  }

  lemma DivisionBounds(t: nat, k: nat, size: nat)
    requires size > 0
    ensures k * size <= t <==> k <= t / size
    ensures t < k * size <==> t / size < k
  {
    assert t == t / size * size + t % size;
    if k <= t / size {
      assert (t / size - k) * size >= 0;
    } else {
      assert (k - t / size - 1) * size >= 0;
    }
  }

  lemma BlocksAscend(sync: seq<nat>, size: nat, n: nat, j: nat, k: nat)
    requires EvenlySplit(sync, size, n) && j < k <= |sync|
    ensures BlockEnd(sync, n, j) <= BlockStart(sync, k)
  {
    assert (k - 1 - j) * size >= 0;
    assert k * size == (j + 1) * size + (k - 1 - j) * size;
  }

  /** A dependency that starts in a block ends there, unless it starts at the closing sync task. */
  lemma ForwardStaysInBlock(sync: seq<nat>, size: nat, n: nat, deps: Edges, block: nat, p: nat, c: nat)
    requires EvenlySplit(sync, size, n) && block <= |sync| && (sync != [] ==> RespectsBlocks(deps, size))
    requires (p, c) in deps && p < c < n
    requires BlockStart(sync, block) <= p <= BlockEnd(sync, n, block)
    requires !(p == BlockEnd(sync, n, block) && IsSyncPosition(size, n, p))
    ensures BlockStart(sync, block) <= c <= BlockEnd(sync, n, block)
  {
    if block < |sync| && sync[block] < n - 1 {
      var end := sync[block];
      assert end == (block + 1) * size - 1;
      SyncTasksAreSyncPositions(sync, size, n, block);
      DivisionBounds(p, block + 1, size);
      DivisionBounds(c, block + 1, size);
      if (p + 1) % size == 0 {
        assert block > 0 || p + 1 < size;
        if block == 0 {
          SmallNotMultiple(p + 1, size);
        } else {
          assert sync[block - 1] == block * size - 1;
          MultipleBetween(p + 1, block, size);
          DivisionBounds(p, block, size);
        }
      }
    }
  }

  lemma SmallNotMultiple(x: nat, size: nat)
    requires 0 < x < size
    ensures x % size != 0
  {
  }

  lemma MultipleBetween(x: nat, k: nat, size: nat)
    requires size > 0 && k * size <= x < (k + 1) * size && x % size == 0
    ensures x == k * size
  {
    DivisionBounds(x, k, size);
    DivisionBounds(x, k + 1, size);
    assert x == x / size * size;
  }

  lemma SyncTasksAreSyncPositions(sync: seq<nat>, size: nat, n: nat, i: nat)
    requires EvenlySplit(sync, size, n) && i < |sync| && sync[i] < n - 1
    ensures size > 0 && (sync[i] + 1) % size == 0 && IsSyncPosition(size, n, sync[i])
  {
    assert (i + 1) * size >= 2;
    ModOfMultiple(i + 1, size);
  }

  lemma ModOfMultiple(k: nat, size: nat)
    requires size > 0
    ensures (k * size) % size == 0
  {
    DivisionBounds(k * size, k, size);
    DivisionBounds(k * size, k + 1, size);
    assert k * size == (k * size) / size * size + (k * size) % size;
    assert (k * size) / size == k;
  }

  /** A dependency that ends in a block starts there, unless it ends at the opening sync task. */
  lemma BackwardStaysInBlock(sync: seq<nat>, size: nat, n: nat, deps: Edges, block: nat, p: nat, c: nat)
    requires EvenlySplit(sync, size, n) && block <= |sync| && (sync != [] ==> RespectsBlocks(deps, size))
    requires (p, c) in deps && p < c < n
    requires BlockStart(sync, block) <= c <= BlockEnd(sync, n, block)
    requires !(c == BlockStart(sync, block) && IsSyncPosition(size, n, c)) && (block > 0 ==> sync[block - 1] < n - 1)
    ensures BlockStart(sync, block) <= p <= BlockEnd(sync, n, block)
  {
    if block > 0 && p < sync[block - 1] {
      SyncTasksAreSyncPositions(sync, size, n, block - 1);
      DivisionBounds(c, block, size);
      DivisionBounds(p, block, size);
      if (p + 1) % size == 0 && p / size == block - 1 {
        DivisionBounds(p, block - 1, size);
        if p + 1 < block * size {
          MultipleBetween(p + 1, block - 1, size);
        }
      }
    }
  }

  /** Every task after the first lies behind the opening task of some block. */
  lemma FindBlock(sync: seq<nat>, size: nat, n: nat, c: nat) returns (block: nat)
    requires EvenlySplit(sync, size, n) && 0 < c < n
    ensures block <= |sync| && BlockStart(sync, block) < c <= BlockEnd(sync, n, block)
  {
    block := 0;
    while block < |sync| && c > sync[block]
      invariant block <= |sync| && BlockStart(sync, block) < c
    {
      block := block + 1;
    }
  }
}
