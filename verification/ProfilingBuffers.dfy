/** Buffers in fast memory for profiling samples: planned one task at a time, then filled, copied out
    and reallocated in a second walk over the same tasks. */
module ProfilingBuffers {

  /** Sizes in bytes; every cluster holds its own part of a buffer. */
  datatype Config = Config(clustersNum: nat, workloadSize: nat, maxBufferSize: nat) {
    predicate Fits(samples: nat) {
      samples * workloadSize <= maxBufferSize
    }

    function AllClusters(samples: nat): nat {
      clustersNum * samples
    }

    lemma AllClustersNone()
      ensures AllClusters(0) == 0
    {
    }

    lemma AllClustersAdd(a: nat, b: nat)
      ensures AllClusters(a) + AllClusters(b) == AllClusters(a + b)
    {
    }

    lemma AllClustersGrow(a: nat, b: nat)
      requires a <= b
      ensures AllClusters(a) <= AllClusters(b)
    {
    }
  }

  /** Samples of one task: the buffer by its number, and where in it, over all clusters. */
  datatype Slot = Slot(buffer: nat, offset: nat, count: nat)

  /** One copy of a buffer to the profiling output. */
  datatype Flush = Flush(ddrOffset: nat, count: nat)

  /** What the second walk has done so far. */
  datatype Progress = Progress(buffers: seq<nat>, pending: seq<nat>, ddrOffset: nat, slots: seq<Slot>,
                               flushes: seq<Flush>)

  function Total(s: seq<nat>): nat {
    if s == [] then 0 else Total(s[..|s| - 1]) + s[|s| - 1]
  }

  function LastOf(s: seq<nat>): nat
    requires s != []
  {
    s[|s| - 1]
  }

  lemma TotalPush(s: seq<nat>, x: nat)
    ensures Total(s + [x]) == Total(s) + x
  {
    assert (s + [x])[..|s|] == s;
  }

  /** The sizes of the buffers, per cluster: the last one is reused as long as the next task fits. */
  ghost function Plan(c: Config, tasks: seq<nat>): (sizes: seq<nat>)
    ensures sizes != []
  {
    if tasks == [] then [0] else PlanOne(c, Plan(c, tasks[..|tasks| - 1]), tasks[|tasks| - 1])
  }

  ghost function PlanOne(c: Config, sizes: seq<nat>, task: nat): (next: seq<nat>)
    requires sizes != []
    ensures next != []
  {
    var last := |sizes| - 1;
    if c.Fits(sizes[last] + task) then sizes[..last] + [sizes[last] + task] else sizes + [task]
  }

  lemma PlanPush(c: Config, tasks: seq<nat>, task: nat)
    ensures Plan(c, tasks + [task]) == PlanOne(c, Plan(c, tasks), task)
  {
    assert (tasks + [task])[..|tasks|] == tasks;
  }

  ghost predicate AllFit(c: Config, tasks: seq<nat>) {
    forall t :: t in tasks ==> c.Fits(t)
  }

  /** Nothing is lost: every buffer fits, together they hold exactly the samples of the tasks, and
      only a plan without any samples has an empty buffer. */
  lemma {:induction false} PlanHolds(c: Config, tasks: seq<nat>)
    requires AllFit(c, tasks)
    ensures AllFit(c, Plan(c, tasks)) && Total(Plan(c, tasks)) == Total(tasks)
    ensures Total(tasks) > 0 ==> 0 !in Plan(c, tasks)
    ensures Total(tasks) == 0 ==> Plan(c, tasks) == [0]
    decreases |tasks|
  {
    if tasks == [] {
      TotalPush([], 0);
    } else {
      var n := |tasks| - 1;
      var before, task := tasks[..n], tasks[n];
      PlanHolds(c, before);
      PlanOneHolds(c, Plan(c, before), task);
    }
  }

  lemma PlanOneHolds(c: Config, sizes: seq<nat>, task: nat)
    requires sizes != [] && AllFit(c, sizes) && c.Fits(task) && (sizes == [0] || 0 !in sizes)
    ensures var next := PlanOne(c, sizes, task); AllFit(c, next) && Total(next) == Total(sizes) + task
    ensures var next := PlanOne(c, sizes, task); if sizes == [0] then next == [task] else 0 !in next
  {
    var last := |sizes| - 1;
    assert sizes[last] in sizes;
    if c.Fits(sizes[last] + task) {
      TotalPush(sizes[..last], sizes[last] + task);
      TotalPush(sizes[..last], sizes[last]);
      assert sizes == sizes[..last] + [sizes[last]];
    } else {
      TotalPush(sizes, task);
    }
  }

  /** Planning more tasks never changes a buffer that is already full. */
  lemma {:induction false} PlanExtends(c: Config, tasks: seq<nat>, k: nat)
    requires k <= |tasks|
    ensures var p, all := Plan(c, tasks[..k]), Plan(c, tasks);
      |p| <= |all| && p[..|p| - 1] == all[..|p| - 1] && p[|p| - 1] <= all[|p| - 1]
    decreases |tasks| - k
  {
    if k == |tasks| {
      assert tasks[..k] == tasks;
    } else {
      PlanExtends(c, tasks, k + 1);
      var p, q, all := Plan(c, tasks[..k]), Plan(c, tasks[..k + 1]), Plan(c, tasks);
      assert tasks[..k + 1] == tasks[..k] + [tasks[k]];
      PlanPush(c, tasks[..k], tasks[k]);
      var last := |p| - 1;
      if !c.Fits(p[last] + tasks[k]) {
        assert q[..last] == p[..last] == all[..last];
        assert q[last] == p[last] && all[last] == q[last] by {
          assert all[..|q| - 1][last] == q[..|q| - 1][last];
        }
      } else {
        assert q[..last] == p[..last];
      }
    }
  }

  // The second walk

  /** Where in its buffer task `k` starts, counted for one cluster. */
  ghost function BeginOf(c: Config, tasks: seq<nat>, k: nat): nat
    requires k < |tasks|
  {
    var before := Plan(c, tasks[..k]);
    if |Plan(c, tasks[..k + 1])| == |before| then LastOf(before) else 0
  }

  /** Where task `k` puts its samples, as the plan of the tasks up to it says. */
  ghost function SlotOf(c: Config, tasks: seq<nat>, k: nat): Slot
    requires k < |tasks|
  {
    Slot(|Plan(c, tasks[..k + 1])| - 1, c.AllClusters(BeginOf(c, tasks, k)), c.AllClusters(tasks[k]))
  }

  /** Every slot lies inside its buffer, right behind the slot of the task before it or at the start
      of the next buffer. */
  lemma SlotsFollow(c: Config, tasks: seq<nat>, k: nat)
    requires k < |tasks|
    ensures var s := SlotOf(c, tasks, k);
      s.buffer < |Plan(c, tasks)| && s.offset + s.count <= c.AllClusters(Plan(c, tasks)[s.buffer])
    ensures k > 0 ==> var s, next := SlotOf(c, tasks, k - 1), SlotOf(c, tasks, k);
      (next.buffer == s.buffer && next.offset == s.offset + s.count) ||
        (next.buffer == s.buffer + 1 && next.offset == 0)
    ensures k == 0 && c.Fits(tasks[k]) ==> SlotOf(c, tasks, k) == Slot(0, 0, c.AllClusters(tasks[k]))
  {
    hide Config.AllClusters, Config.Fits, Plan;
    SlotEnds(c, tasks, k);
    PlanExtends(c, tasks, k + 1);
    var p, all := Plan(c, tasks[..k + 1]), Plan(c, tasks);
    c.AllClustersGrow(p[|p| - 1], all[|p| - 1]);
    if k > 0 {
      SlotEnds(c, tasks, k - 1);
      SlotStarts(c, tasks, k);
    } else if c.Fits(tasks[0]) {
      FirstSlot(c, tasks);
    }
  }

  lemma FirstSlot(c: Config, tasks: seq<nat>)
    requires tasks != [] && c.Fits(tasks[0])
    ensures SlotOf(c, tasks, 0) == Slot(0, 0, c.AllClusters(tasks[0]))
  {
    assert tasks[..0] == [] && tasks[..1] == [] + [tasks[0]];
    PlanPush(c, [], tasks[0]);
  }

  /** A slot ends where the samples planned so far end. */
  lemma SlotEnds(c: Config, tasks: seq<nat>, k: nat)
    requires k < |tasks|
    ensures var s, p, before := SlotOf(c, tasks, k), Plan(c, tasks[..k + 1]), Plan(c, tasks[..k]);
      s.buffer == |p| - 1 && s.offset + s.count == c.AllClusters(p[|p| - 1])
  {
    assert tasks[..k + 1] == tasks[..k] + [tasks[k]];
    PlanPush(c, tasks[..k], tasks[k]);
    var before := Plan(c, tasks[..k]);
    c.AllClustersAdd(before[|before| - 1], tasks[k]);
  }

  lemma SlotStarts(c: Config, tasks: seq<nat>, k: nat)
    requires k < |tasks|
    ensures var s, before := SlotOf(c, tasks, k), Plan(c, tasks[..k]);
      (s.buffer == |before| - 1 && s.offset == c.AllClusters(before[|before| - 1])) ||
        (s.buffer == |before| && s.offset == 0)
  {
    hide Config.AllClusters, Config.Fits, Plan;
    c.AllClustersNone();
    assert tasks[..k + 1] == tasks[..k] + [tasks[k]];
    PlanPush(c, tasks[..k], tasks[k]);
  }

  /** The overflow test of the second walk counts all clusters, that of the first one only one. */
  lemma OverflowAlike(c: Config, planned: nat, task: nat)
    requires c.clustersNum > 0
    ensures (c.AllClusters(planned) + c.AllClusters(task)) * c.workloadSize > c.AllClusters(c.maxBufferSize) <==>
      !c.Fits(planned + task)
  {
    var n, w, m := c.clustersNum, c.workloadSize, c.maxBufferSize;
    var x := (planned + task) * w;
    c.AllClustersAdd(planned, task);
    assert n * (planned + task) * w == n * x;
    if x > m {
      assert n * x >= n * (m + 1) == n * m + n;
    } else {
      c.AllClustersGrow(x, m);
    }
  }

  /** The copy that empties buffer `i`. */
  ghost function FlushOf(c: Config, sizes: seq<nat>, start: nat, i: nat): Flush
    requires i < |sizes|
  {
    Flush(start + c.AllClusters(Total(sizes[..i])), c.AllClusters(sizes[i]))
  }

  /** After `k` tasks: exactly the buffers the plan knows of by then are allocated, all but the last
      one are copied out, and the rest of the plan is left. */
  ghost predicate Midway(c: Config, tasks: seq<nat>, k: nat, start: nat, left: seq<nat>, s: Progress) {
    && k <= |tasks| && (k > 0 ==> s.pending != [])
    && var p, all := Plan(c, tasks[..k]), Plan(c, tasks);
    && |p| <= |all| && s.buffers == all[..|p|] && left == all[|p|..]
    && Total(s.pending) == c.AllClusters(p[|p| - 1])
    && FlushesOf(c, all, start, |p| - 1, s) && SlotsOf(c, tasks, k, s.slots)
  }

  ghost predicate SlotsOf(c: Config, tasks: seq<nat>, k: nat, slots: seq<Slot>) {
    |slots| == k <= |tasks| && forall i :: 0 <= i < k ==> slots[i] == SlotOf(c, tasks, i)
  }

  ghost predicate FlushesOf(c: Config, sizes: seq<nat>, start: nat, n: nat, s: Progress) {
    && n <= |sizes| && |s.flushes| == n && s.ddrOffset == start + c.AllClusters(Total(sizes[..n]))
    && forall i :: 0 <= i < n ==> s.flushes[i] == FlushOf(c, sizes, start, i)
  }

  /** The whole plan is used up, and the output is filled without a gap. */
  ghost predicate Replayed(c: Config, tasks: seq<nat>, start: nat, left: seq<nat>, s: Progress) {
    && left == [] && s.buffers == Plan(c, tasks) && s.pending == []
    && FlushesOf(c, Plan(c, tasks), start, |Plan(c, tasks)|, s)
    && s.ddrOffset == start + c.AllClusters(Total(tasks))
    && SlotsOf(c, tasks, |tasks|, s.slots)
  }

  /** Copying buffer `n` out. */
  lemma OneMoreFlush(c: Config, sizes: seq<nat>, start: nat, n: nat, s: Progress, next: Progress)
    requires FlushesOf(c, sizes, start, n, s) && n < |sizes| && Total(s.pending) == c.AllClusters(sizes[n])
    requires next.flushes == s.flushes + [Flush(s.ddrOffset, Total(s.pending))]
    requires next.ddrOffset == s.ddrOffset + Total(s.pending)
    ensures FlushesOf(c, sizes, start, n + 1, next)
  {
    assert sizes[..n + 1] == sizes[..n] + [sizes[n]];
    TotalPush(sizes[..n], sizes[n]);
    c.AllClustersAdd(Total(sizes[..n]), sizes[n]);
  }

  lemma MidwayStarts(c: Config, tasks: seq<nat>, start: nat)
    requires AllFit(c, tasks) && Total(tasks) > 0
    ensures var all := Plan(c, tasks);
      all[0] > 0 && Midway(c, tasks, 0, start, all[1..], Progress([all[0]], [], start, [], []))
  {
    PlanHolds(c, tasks);
    assert tasks[..0] == [];
    var all := Plan(c, tasks);
    assert all[0] in all;
    assert all[..0] == [] && all[..1] == [all[0]];
  }

  /** A task that still fits goes into the current buffer. */
  lemma MidwayFits(c: Config, tasks: seq<nat>, k: nat, start: nat, left: seq<nat>, s: Progress)
    requires Midway(c, tasks, k, start, left, s) && k < |tasks| && c.Fits(LastOf(Plan(c, tasks[..k])) + tasks[k])
    ensures var slot := Slot(|s.buffers| - 1, Total(s.pending), c.AllClusters(tasks[k]));
      Midway(c, tasks, k + 1, start, left, s.(pending := s.pending + [slot.count], slots := s.slots + [slot]))
  {
    hide Config.AllClusters, Plan, Total;
    var p := Plan(c, tasks[..k]);
    assert tasks[..k + 1] == tasks[..k] + [tasks[k]];
    PlanPush(c, tasks[..k], tasks[k]);
    PlanExtends(c, tasks, k);
    TotalPush(s.pending, c.AllClusters(tasks[k]));
    c.AllClustersAdd(p[|p| - 1], tasks[k]);
  }

  /** When a task does not fit, the buffer is as full as planned, and the next one is planned. */
  lemma FullAsPlanned(c: Config, tasks: seq<nat>, k: nat)
    requires k < |tasks| && AllFit(c, tasks) && !c.Fits(LastOf(Plan(c, tasks[..k])) + tasks[k])
    ensures var p, all := Plan(c, tasks[..k]), Plan(c, tasks);
      k > 0 && Plan(c, tasks[..k + 1]) == p + [tasks[k]] && |p| < |all| && LastOf(p) == all[|p| - 1] && all[|p|] > 0
  {
    hide Plan, Total;
    var p, q, all := Plan(c, tasks[..k]), Plan(c, tasks[..k + 1]), Plan(c, tasks);
    assert tasks[..k + 1] == tasks[..k] + [tasks[k]] && tasks[k] in tasks;
    PlanPush(c, tasks[..k], tasks[k]);
    PlanExtends(c, tasks, k + 1);
    assert q == p + [tasks[k]];
    assert q[..|p|][|p| - 1] == all[..|p|][|p| - 1];
    if k == 0 {
      NoTasks(c, tasks[..k]);
      assert false;
    }
    PlanHolds(c, tasks);
    assert all[|p|] in all;
  }

  lemma NoTasks(c: Config, tasks: seq<nat>)
    requires tasks == []
    ensures Plan(c, tasks) == [0]
  {
  }

  /** Such a task goes to the start of the next buffer, once the current one has been copied out. */
  lemma MidwayOverflows(c: Config, tasks: seq<nat>, k: nat, start: nat, left: seq<nat>, s: Progress)
    requires Midway(c, tasks, k, start, left, s) && k < |tasks| && AllFit(c, tasks)
    requires !c.Fits(LastOf(Plan(c, tasks[..k])) + tasks[k])
    ensures s.pending != [] && left != [] && left[0] > 0
    ensures var slot := Slot(|s.buffers|, 0, c.AllClusters(tasks[k]));
      Midway(c, tasks, k + 1, start, left[1..],
        Progress(s.buffers + [left[0]], [slot.count], s.ddrOffset + Total(s.pending),
        s.slots + [slot], s.flushes + [Flush(s.ddrOffset, Total(s.pending))]))
  {
    hide Config.AllClusters, Config.Fits, Plan, Total, AllFit, FlushesOf;
    c.AllClustersNone();
    FullAsPlanned(c, tasks, k);
    var p, all := Plan(c, tasks[..k]), Plan(c, tasks);
    var n := |p|;
    assert all[..n + 1] == all[..n] + [all[n]] && all[n..][1..] == all[n + 1..];
    var slot := Slot(|s.buffers|, 0, c.AllClusters(tasks[k]));
    var next := Progress(s.buffers + [left[0]], [slot.count], s.ddrOffset + Total(s.pending),
      s.slots + [slot], s.flushes + [Flush(s.ddrOffset, Total(s.pending))]);
    OneMoreFlush(c, all, start, n - 1, s, next);
    TotalOne(slot.count);
  }

  lemma TotalOne(x: nat)
    ensures Total([x]) == x
  {
    TotalPush([], x);
    assert [] + [x] == [x];
  }

  /** The last copy leaves nothing behind. */
  lemma MidwayEnds(c: Config, tasks: seq<nat>, start: nat, left: seq<nat>, s: Progress)
    requires Midway(c, tasks, |tasks|, start, left, s) && AllFit(c, tasks) && Total(tasks) > 0
    ensures s.pending != []
    ensures Replayed(c, tasks, start, left, s.(pending := [], ddrOffset := s.ddrOffset + Total(s.pending),
                                               flushes := s.flushes + [Flush(s.ddrOffset, Total(s.pending))]))
  {
    assert tasks[..|tasks|] == tasks;
    var all := Plan(c, tasks);
    PlanHolds(c, tasks);
    var next := s.(pending := [], ddrOffset := s.ddrOffset + Total(s.pending),
                   flushes := s.flushes + [Flush(s.ddrOffset, Total(s.pending))]);
    OneMoreFlush(c, all, start, |all| - 1, s, next);
    assert all[..|all|] == all;
  }

  datatype Allocation = Allocated(left: seq<nat>, next: Progress) | EmptyBuffer

  function AllocateProfilingBufferCMX(left: seq<nat>, s: Progress): Allocation {
    if left == [] then Allocated(left, s)
    else if left[0] == 0 then EmptyBuffer
    else Allocated(left[1..], s.(buffers := s.buffers + [left[0]]))
  }

  function FlushCMX2DDR(s: Progress): Progress {
    if s.pending == [] || s.buffers == [] then s
    else
      var flushed := Total(s.pending);
      s.(pending := [], ddrOffset := s.ddrOffset + flushed, flushes := s.flushes + [Flush(s.ddrOffset, flushed)])
  }

  lemma InAllClusters(c: Config, samples: nat)
    ensures samples * c.clustersNum == c.AllClusters(samples)
  {
  }

  lemma RequiredOrNot(total: nat, clusters: nat, size: nat)
    ensures total * clusters * size == 0 <==> total == 0 || clusters == 0 || size == 0
  {
    if total > 0 && clusters > 0 {
      assert total * clusters > 0;
      if size > 0 {
        assert total * clusters * size > 0;
      }
    }
  }

  lemma MidwayFacts(c: Config, tasks: seq<nat>, k: nat, start: nat, left: seq<nat>, s: Progress)
    requires Midway(c, tasks, k, start, left, s)
    ensures s.buffers != [] && k <= |tasks| && Total(s.pending) == c.AllClusters(LastOf(Plan(c, tasks[..k])))
  {
    hide Plan, Total, FlushesOf, SlotsOf, Config.AllClusters;
  }

  lemma ReplayedOffset(c: Config, tasks: seq<nat>, start: nat, left: seq<nat>, s: Progress, size: nat)
    requires Replayed(c, tasks, start, left, s)
    ensures (s.ddrOffset - start) * size == Total(tasks) * c.clustersNum * size
  {
    hide Plan, Total, FlushesOf, SlotsOf;
    InAllClusters(c, Total(tasks));
    assert s.ddrOffset - start == Total(tasks) * c.clustersNum;
  }

  /** What an activation kernel is told about its samples. */
  datatype SwProfilingMeta = SwProfilingMeta(bufferId: nat, bufferOffset: nat, clusterSize: nat, dataIndex: nat)

  /** The same by the plan: the copy of the buffer to the output starts at `bufferOffset`. */
  ghost function MetaOf(c: Config, tasks: seq<nat>, k: nat): (m: SwProfilingMeta)
    requires k < |tasks|
  {
    var b, all := |Plan(c, tasks[..k + 1])| - 1, Plan(c, tasks);
    PlanExtends(c, tasks, k + 1);
    SwProfilingMeta(b, FlushOf(c, all, 0, b).ddrOffset, all[b], BeginOf(c, tasks, k))
  }

  ghost predicate MetasOf(c: Config, tasks: seq<nat>, k: nat, metas: seq<SwProfilingMeta>) {
    |metas| == k <= |tasks| && forall i :: 0 <= i < k ==> metas[i] == MetaOf(c, tasks, i)
  }

  lemma MetaNow(c: Config, tasks: seq<nat>, k: nat, left: seq<nat>, s: Progress, begin: nat)
    requires k < |tasks| && Midway(c, tasks, k + 1, 0, left, s) && begin == BeginOf(c, tasks, k)
    ensures s.buffers != []
    ensures MetaOf(c, tasks, k) == SwProfilingMeta(|s.buffers| - 1, s.ddrOffset, LastOf(s.buffers), begin)
  {
    hide Plan, Total, Config.AllClusters, SlotsOf, BeginOf;
    var p, all := Plan(c, tasks[..k + 1]), Plan(c, tasks);
    assert all[..|p|][|p| - 1] == all[|p| - 1];
  }

  lemma BeginFits(c: Config, tasks: seq<nat>, k: nat)
    requires k < |tasks|
    ensures BeginOf(c, tasks, k) == if c.Fits(LastOf(Plan(c, tasks[..k])) + tasks[k]) then
      LastOf(Plan(c, tasks[..k])) else 0
    ensures BeginOf(c, tasks, k) + tasks[k] == LastOf(Plan(c, tasks[..k + 1]))
  {
    assert tasks[..k + 1] == tasks[..k] + [tasks[k]];
    PlanPush(c, tasks[..k], tasks[k]);
  }

  /** Profiling of the tasks of the convolution engine that run on the same number of clusters. */
  class BaseClusterBufferScheduler {
    const config: Config
    const profilingElementSize: nat
    var profilingBufferSizes: seq<nat>
    var nceTaskSignatures: seq<nat>

    constructor (config: Config)
      ensures this.config == config && profilingElementSize == config.workloadSize / 8
      ensures nceTaskSignatures == [] && Planned()
    {
      this.config, profilingElementSize := config, config.workloadSize / 8;
      profilingBufferSizes, nceTaskSignatures := [0], [];
    }

    /** The buffer sizes are those of the tasks scheduled so far. */
    ghost predicate Planned()
      reads this
    {
      profilingBufferSizes == Plan(config, nceTaskSignatures) && AllFit(config, nceTaskSignatures)
    }

    function GetRequiredDdrMemory(): (r: nat)
      reads this
      ensures r == Total(nceTaskSignatures) * config.clustersNum * profilingElementSize
    {
      Total(nceTaskSignatures) * config.clustersNum * profilingElementSize
    }

    /** `scheduleNceTask`; a task that does not even fit on its own is refused. */
    method ScheduleNceTask(maxDpuTasks: nat) returns (accepted: bool)
      requires Planned()
      modifies this
      ensures Planned() && accepted == config.Fits(maxDpuTasks)
      ensures nceTaskSignatures == if accepted then old(nceTaskSignatures) + [maxDpuTasks] else old(nceTaskSignatures)
    {
      if maxDpuTasks * config.workloadSize > config.maxBufferSize {
        return false;
      }
      PlanPush(config, nceTaskSignatures, maxDpuTasks);
      nceTaskSignatures := nceTaskSignatures + [maxDpuTasks];
      var last := |profilingBufferSizes| - 1;
      var newBufferSize := profilingBufferSizes[last] + maxDpuTasks;
      if newBufferSize * config.workloadSize > config.maxBufferSize {
        profilingBufferSizes := profilingBufferSizes + [maxDpuTasks];
      } else {
        profilingBufferSizes := profilingBufferSizes[..last] + [newBufferSize];
      }
      return true;
    }

    /** `addProfilingOps`.  The plan is met to the letter: nothing throws, every buffer planned is
        allocated and copied out once, and the output grows by exactly the memory reserved for it. */
    method AddProfilingOps(currentDDROffset: nat) returns (thrown: bool, s: Progress)
      requires Planned()
      modifies `profilingBufferSizes
      ensures !thrown && (s.ddrOffset - currentDDROffset) * profilingElementSize == GetRequiredDdrMemory()
      ensures if GetRequiredDdrMemory() == 0 then s == Progress([], [], currentDDROffset, [], [])
              else Replayed(config, nceTaskSignatures, currentDDROffset, profilingBufferSizes, s)
    {
      hide Plan, Midway, Replayed, Total, FlushesOf, Config.AllClusters, AllFit;
      thrown, s := false, Progress([], [], currentDDROffset, [], []);
      RequiredOrNot(Total(nceTaskSignatures), config.clustersNum, profilingElementSize);
      if GetRequiredDdrMemory() == 0 {
        return;
      }
      MidwayStarts(config, nceTaskSignatures, currentDDROffset);
      assert [] + [profilingBufferSizes[0]] == [profilingBufferSizes[0]];
      var first := AllocateProfilingBufferCMX(profilingBufferSizes, s);
      if first.EmptyBuffer? {
        return true, s;
      }
      profilingBufferSizes, s := first.left, first.next;
      var k := 0;
      while k < |nceTaskSignatures|
        invariant k <= |nceTaskSignatures|
        invariant Midway(config, nceTaskSignatures, k, currentDDROffset, profilingBufferSizes, s)
      {
        MidwayFacts(config, nceTaskSignatures, k, currentDDROffset, profilingBufferSizes, s);
        var dpuTasksAmount := nceTaskSignatures[k] * config.clustersNum;
        InAllClusters(config, nceTaskSignatures[k]);
        InAllClusters(config, config.maxBufferSize);
        var profilingSamplesInCMX := Total(s.pending);
        OverflowAlike(config, LastOf(Plan(config, nceTaskSignatures[..k])), nceTaskSignatures[k]);
        if (profilingSamplesInCMX + dpuTasksAmount) * config.workloadSize > config.maxBufferSize * config.clustersNum {
          MidwayOverflows(config, nceTaskSignatures, k, currentDDROffset, profilingBufferSizes, s);
          assert [] + [dpuTasksAmount] == [dpuTasksAmount];
          s := FlushCMX2DDR(s);
          profilingSamplesInCMX := 0;
          var another := AllocateProfilingBufferCMX(profilingBufferSizes, s);
          if another.EmptyBuffer? {
            return true, s;
          }
          profilingBufferSizes, s := another.left, another.next;
        } else {
          MidwayFits(config, nceTaskSignatures, k, currentDDROffset, profilingBufferSizes, s);
        }
        s := s.(pending := s.pending + [dpuTasksAmount],
                slots := s.slots + [Slot(|s.buffers| - 1, profilingSamplesInCMX, dpuTasksAmount)]);
        k := k + 1;
      }
      MidwayEnds(config, nceTaskSignatures, currentDDROffset, profilingBufferSizes, s);
      s := FlushCMX2DDR(s);
      ReplayedOffset(config, nceTaskSignatures, currentDDROffset, profilingBufferSizes, s, profilingElementSize);
    }
  }

  /** Profiling of the activation kernels; in a tiled network every kernel gets room on all clusters. */
  class BaseActShaveProfiler {
    const config: Config
    const profilingElementSize: nat
    var profilingBufferSizes: seq<nat>
    var swTaskSignatures: seq<nat>

    constructor (config: Config)
      ensures this.config == config && profilingElementSize == config.workloadSize / 4
      ensures swTaskSignatures == [] && Planned()
    {
      this.config, profilingElementSize := config, config.workloadSize / 4;
      profilingBufferSizes, swTaskSignatures := [0], [];
    }

    ghost predicate Planned()
      reads this
    {
      profilingBufferSizes == Plan(config, swTaskSignatures) && AllFit(config, swTaskSignatures)
    }

    function GetRequiredDdrMemory(): (r: nat)
      reads this
      ensures r == Total(swTaskSignatures) * config.clustersNum * profilingElementSize
    {
      Total(swTaskSignatures) * config.clustersNum * profilingElementSize
    }

    method ScheduleTask(maxSwTasks: nat) returns (accepted: bool)
      requires Planned()
      modifies this
      ensures Planned() && accepted == config.Fits(maxSwTasks)
      ensures swTaskSignatures == if accepted then old(swTaskSignatures) + [maxSwTasks] else old(swTaskSignatures)
    {
      if maxSwTasks * config.workloadSize > config.maxBufferSize {
        return false;
      }
      PlanPush(config, swTaskSignatures, maxSwTasks);
      swTaskSignatures := swTaskSignatures + [maxSwTasks];
      var last := |profilingBufferSizes| - 1;
      var newBufferSize := profilingBufferSizes[last] + maxSwTasks;
      if newBufferSize * config.workloadSize > config.maxBufferSize {
        profilingBufferSizes := profilingBufferSizes + [maxSwTasks];
      } else {
        profilingBufferSizes := profilingBufferSizes[..last] + [newBufferSize];
      }
      return true;
    }

    /** `addProfilingOps` of the kernels throws exactly when there is no sample to take; otherwise it
        meets the plan, and tells each kernel its buffer, where that goes and its place in it. */
    method AddProfilingOps() returns (thrown: bool, s: Progress, metas: seq<SwProfilingMeta>)
      requires Planned() && config.clustersNum > 0
      modifies `profilingBufferSizes
      ensures thrown <==> Total(swTaskSignatures) == 0
      ensures !thrown ==> Replayed(config, swTaskSignatures, 0, profilingBufferSizes, s)
      ensures !thrown ==> s.ddrOffset * profilingElementSize == GetRequiredDdrMemory()
      ensures !thrown ==> MetasOf(config, swTaskSignatures, |swTaskSignatures|, metas)
    {
      hide Plan, Midway, Replayed, Total, FlushesOf, Config.AllClusters, AllFit, MetaOf, BeginOf;
      thrown, s, metas := false, Progress([], [], 0, [], []), [];
      PlanHolds(config, swTaskSignatures);
      if Total(swTaskSignatures) > 0 {
        MidwayStarts(config, swTaskSignatures, 0);
      }
      assert [] + [profilingBufferSizes[0]] == [profilingBufferSizes[0]];
      var first := AllocateProfilingBufferCMX(profilingBufferSizes, s);
      if first.EmptyBuffer? {
        return true, s, metas;
      }
      profilingBufferSizes, s := first.left, first.next;
      var inClusterOffset := 0;
      NoTasks(config, swTaskSignatures[..0]);
      var k := 0;
      while k < |swTaskSignatures|
        invariant k <= |swTaskSignatures| && Midway(config, swTaskSignatures, k, 0, profilingBufferSizes, s)
        invariant inClusterOffset == LastOf(Plan(config, swTaskSignatures[..k]))
        invariant MetasOf(config, swTaskSignatures, k, metas)
      {
        MidwayFacts(config, swTaskSignatures, k, 0, profilingBufferSizes, s);
        BeginFits(config, swTaskSignatures, k);
        var tasksCount := swTaskSignatures[k] * config.clustersNum;
        InAllClusters(config, swTaskSignatures[k]);
        InAllClusters(config, config.maxBufferSize);
        var profilingSamplesInCMX := Total(s.pending);
        OverflowAlike(config, LastOf(Plan(config, swTaskSignatures[..k])), swTaskSignatures[k]);
        if (profilingSamplesInCMX + tasksCount) * config.workloadSize > config.maxBufferSize * config.clustersNum {
          MidwayOverflows(config, swTaskSignatures, k, 0, profilingBufferSizes, s);
          assert [] + [tasksCount] == [tasksCount];
          s := FlushCMX2DDR(s);
          profilingSamplesInCMX := 0;
          inClusterOffset := 0;
          var another := AllocateProfilingBufferCMX(profilingBufferSizes, s);
          if another.EmptyBuffer? {
            return true, s, metas;
          }
          profilingBufferSizes, s := another.left, another.next;
        } else {
          MidwayFits(config, swTaskSignatures, k, 0, profilingBufferSizes, s);
        }
        ghost var next := s.(pending := s.pending + [tasksCount],
                             slots := s.slots + [Slot(|s.buffers| - 1, profilingSamplesInCMX, tasksCount)]);
        MetaNow(config, swTaskSignatures, k, profilingBufferSizes, next, inClusterOffset);
        metas := metas + [SwProfilingMeta(|s.buffers| - 1, s.ddrOffset, LastOf(s.buffers), inClusterOffset)];
        inClusterOffset := inClusterOffset + swTaskSignatures[k];
        s := s.(pending := s.pending + [tasksCount],
                slots := s.slots + [Slot(|s.buffers| - 1, profilingSamplesInCMX, tasksCount)]);
        k := k + 1;
      }
      MidwayEnds(config, swTaskSignatures, 0, profilingBufferSizes, s);
      s := FlushCMX2DDR(s);
      ReplayedOffset(config, swTaskSignatures, 0, profilingBufferSizes, s, profilingElementSize);
    }
  }
}
