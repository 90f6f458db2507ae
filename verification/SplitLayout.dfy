/** How a split lays out the tasks: the block of each task, the sync task that closes each
    block but the last, and the two barriers that the split adds for each sync task. */
module SplitLayout {
  import opened ControlBlocks

  function NumOfBlocks(n: nat, size: nat): nat
    requires size > 0
  {
    n / size + if n % size > 0 then 1 else 0
  }

  function SyncTask(block: nat, size: nat): nat
    requires size > 0
  {
    block * size + size - 1
  }

  /** `bars` is the number of barriers before the split. */
  datatype Layout = Layout(block: seq<nat>, sync: seq<nat>, bars: nat) {

    ghost predicate Valid() {
      && |sync| >= 1
      && (forall t :: 0 <= t < |block| ==> block[t] <= |sync|)
      && (forall s, t :: 0 <= s <= t < |block| ==> block[s] <= block[t])
      && (forall k :: 0 <= k < |sync| ==> sync[k] < |block| - 1 && block[sync[k]] == k)
      && (forall t :: 0 <= t < |block| && block[t] < |sync| ==> t <= sync[block[t]])
    }

    /** The layout is the one that blocks of `size` tasks give. */
    ghost predicate For(n: nat, size: nat)
      requires size > 0
    {
      && |block| == n && |sync| + 1 == NumOfBlocks(n, size)
      && (forall t {:trigger block[t]} :: 0 <= t < n ==> block[t] == t / size)
      && (forall k {:trigger sync[k]} :: 0 <= k < |sync| ==> sync[k] == SyncTask(k, size))
    }

    ghost predicate IsSync(t: nat)
      requires t < |block|
    {
      block[t] < |sync| && t == sync[block[t]]
    }

    function WaitBarrier(k: nat): nat {
      bars + 2 * k
    }

    function UpdateBarrier(k: nat): nat {
      bars + 2 * k + 1
    }

    /** First index of the barriers that the split adds besides those of sync tasks. */
    function Base(): nat {
      bars + 2 * |sync|
    }
  }

  lemma DivisionStep(t: nat, size: nat)
    requires size > 0
    ensures (t + 1) % size != 0 ==> (t + 1) / size == t / size
    ensures (t + 1) % size == 0 ==> (t + 1) / size == t / size + 1 && t == SyncTask(t / size, size)
  {
    var k := t / size;
    DivisionBounds(t, k, size);
    DivisionBounds(t, k + 1, size);
    DivisionBounds(t + 1, k, size);
    DivisionBounds(t + 1, k + 1, size);
    DivisionBounds(t + 1, k + 2, size);
    if (t + 1) % size == 0 {
      assert t + 1 == (t + 1) / size * size;
      assert (t + 1) / size == k ==> t + 1 == k * size;
    } else if (t + 1) / size == k + 1 {
      assert t + 1 == (k + 1) * size;
      ModOfMultiple(k + 1, size);
      assert false;
    }
  }

  function Divisions(n: nat, size: nat): seq<nat>
    requires size > 0
  {
    seq(n, t requires 0 <= t < n => t / size)
  }

  function SyncTasks(blocks: nat, size: nat): seq<nat>
    requires size > 0
  {
    seq(blocks, k requires 0 <= k < blocks => SyncTask(k, size))
  }

  lemma BlockCountBounds(n: nat, size: nat)
    requires 2 <= size < n
    ensures NumOfBlocks(n, size) >= 2
    ensures (NumOfBlocks(n, size) - 1) * size < n <= NumOfBlocks(n, size) * size
  {
    DivisionBounds(n, 1, size);
    assert n == n / size * size + n % size;
    if n % size == 0 {
      assert (n / size - 1) * size == n - size;
      assert n / size == 1 ==> n == size;
    } else {
      assert (n / size + 1) * size == n / size * size + size;
    }
  }

  lemma SyncTaskBounds(n: nat, size: nat, k: nat)
    requires 2 <= size < n && k < NumOfBlocks(n, size) - 1
    ensures SyncTask(k, size) == (k + 1) * size - 1
    ensures 1 <= SyncTask(k, size) < n - 1 && SyncTask(k, size) / size == k
  {
    BlockCountBounds(n, size);
    var blocks := NumOfBlocks(n, size);
    assert (blocks - 2 - k) * size >= 0;
    assert (blocks - 1) * size == (k + 1) * size + (blocks - 2 - k) * size;
    assert (k + 1) * size == k * size + size;
    DivisionBounds(SyncTask(k, size), k, size);
    DivisionBounds(SyncTask(k, size), k + 1, size);
  }

  lemma TaskBounds(n: nat, size: nat, t: nat)
    requires 2 <= size < n && t < n
    ensures t / size < NumOfBlocks(n, size) && t <= SyncTask(t / size, size)
    ensures IsSyncPosition(size, n, t) <==> t / size < NumOfBlocks(n, size) - 1 && t == SyncTask(t / size, size)
  {
    BlockCountBounds(n, size);
    var blocks := NumOfBlocks(n, size);
    DivisionBounds(t, blocks, size);
    DivisionBounds(t, t / size + 1, size);
    assert (t / size + 1) * size == t / size * size + size;
    DivisionStep(t, size);
    ModOfMultiple(t / size + 1, size);
    assert IsSyncPosition(size, n, t) && t / size == blocks - 1 ==> t + 1 == blocks * size;
    if t / size < blocks - 1 && t == SyncTask(t / size, size) {
      SyncTaskBounds(n, size, t / size);
    }
  }

  /** Blocks of `size` tasks, at least two of them and fewer than all, form a valid layout. */
  lemma MakeLayout(n: nat, size: nat, bars: nat) returns (layout: Layout)
    requires 2 <= size < n
    ensures layout.Valid() && layout.For(n, size) && layout.bars == bars
    ensures EvenlySplit(layout.sync, size, n)
    ensures forall t: nat :: t < n ==> (layout.IsSync(t) <==> IsSyncPosition(size, n, t))
  {
    BlockCountBounds(n, size);
    var blocks := NumOfBlocks(n, size);
    layout := Layout(Divisions(n, size), SyncTasks(blocks - 1, size), bars);
    forall k: nat | k < blocks - 1
      ensures 1 <= SyncTask(k, size) < n - 1 && SyncTask(k, size) / size == k && SyncTask(k, size) == (k + 1) * size - 1
    {
      SyncTaskBounds(n, size, k);
    }
    forall s, t | 0 <= s <= t < n
      ensures layout.block[s] <= layout.block[t]
    {
      DivisionBounds(s, s / size, size);
      DivisionBounds(t, s / size, size);
    }
    forall t: nat | t < n
      ensures t / size < blocks && t <= SyncTask(t / size, size)
      ensures IsSyncPosition(size, n, t) <==> t / size < blocks - 1 && t == SyncTask(t / size, size)
    {
      TaskBounds(n, size, t);
    }
  }

  /** In the last block only the last task can sit where a sync task would. */
  lemma LastBlockSyncPosition(n: nat, size: nat, t: nat)
    requires 2 <= size < n && t < n && t / size == NumOfBlocks(n, size) - 1 && t == SyncTask(t / size, size)
    ensures t == n - 1
  {
    BlockCountBounds(n, size);
    assert (t / size + 1) * size == t / size * size + size;
  }
}
