/**
 The allocator's metrics, stated as facts about the shape of memory rather than
 as running counters, and shown to follow every step.
 */
module SlabAccounting {
  import opened Basics
  import opened Memory
  import opened SlabModel

  datatype Metrics = Metrics(
    allocatedBytes: nat,
    usedBytes: nat,
    freeBytes: nat,
    allocationCount: nat,
    deallocationCount: nat,
    internalFragmentation: nat,
    slabCount: nat)

  // ---- Sums ----

  ghost function Sum(m: map<nat, nat>): nat {
    if m == map[] then 0 else
      var k :| k in m;
      m[k] + Sum(m - {k})
  }

  lemma {:induction false} SumRemove(m: map<nat, nat>, k: nat)
    requires k in m
    ensures Sum(m) == m[k] + Sum(m - {k})
    decreases m
  {
    var j :| j in m && Sum(m) == m[j] + Sum(m - {j});
    if j != k {
      SumRemove(m - {j}, k);
      SumRemove(m - {k}, j);
      assert (m - {j}) - {k} == (m - {k}) - {j};
    }
  }

  lemma {:induction false} SumInsert(m: map<nat, nat>, k: nat, v: nat)
    requires k !in m
    ensures Sum(m[k := v]) == Sum(m) + v
  {
    SumRemove(m[k := v], k);
    assert m[k := v] - {k} == m;
  }

  ghost function Sizes(blocks: map<nat, seq<Cell>>): map<nat, nat> {
    map p | p in blocks :: |blocks[p]|
  }

  ghost function Slack(x: Shape): map<nat, nat> {
    map p | p in x.blocks && p in x.extents && |x.blocks[p]| <= x.extents[p].bytes ::
      x.extents[p].bytes - |x.blocks[p]|
  }

  ghost function FreeBytes(frees: seq<seq<nat>>, n: nat): nat
    requires n <= |frees|
  {
    if n == 0 then 0 else FreeBytes(frees, n - 1) + Times(|frees[n - 1]|, ClassSize(n - 1))
  }

  lemma {:induction false} FreeBytesUpdate(frees: seq<seq<nat>>, n: nat, i: nat, list: seq<nat>)
    requires n <= |frees| && i < |frees|
    ensures FreeBytes(frees[i := list], n)
         == FreeBytes(frees, n) + if i < n then Times(|list|, ClassSize(i)) - Times(|frees[i]|, ClassSize(i)) else 0
  {
    if n != 0 {
      FreeBytesUpdate(frees, n - 1, i, list);
    }
  }

  ghost function SlabTotal(slabs: seq<seq<nat>>, n: nat): nat
    requires n <= |slabs|
  {
    if n == 0 then 0 else SlabTotal(slabs, n - 1) + |slabs[n - 1]|
  }

  lemma {:induction false} SlabTotalUpdate(slabs: seq<seq<nat>>, n: nat, i: nat, list: seq<nat>)
    requires n <= |slabs| && i < |slabs|
    ensures SlabTotal(slabs[i := list], n) == SlabTotal(slabs, n) + if i < n then |list| - |slabs[i]| else 0
  {
    if n != 0 {
      SlabTotalUpdate(slabs, n - 1, i, list);
    }
  }

  // ---- What the counters mean ----

  /** The byte counters that sum over live blocks. */
  ghost predicate LiveCounted(x: Shape, m: Metrics) {
    && m.usedBytes == Sum(Sizes(x.blocks))
    && m.internalFragmentation == Sum(Slack(x))
    && m.allocationCount == m.deallocationCount + |x.blocks|
  }

  /** The counters that sum over size classes. */
  ghost predicate ClassesCounted(x: Shape, m: Metrics) {
    && |x.frees| == |x.slabs| == CLASS_COUNT
    && m.freeBytes == FreeBytes(x.frees, CLASS_COUNT)
    && m.slabCount == SlabTotal(x.slabs, CLASS_COUNT)
  }

  ghost predicate BlocksCounted(x: Shape) {
    && |x.frees| == |x.slabs| == CLASS_COUNT
    && forall i :: 0 <= i < CLASS_COUNT ==> |x.frees[i]| + |LiveOf(x, i)| == Times(|x.slabs[i]|, PerSlab(i))
  }

  ghost predicate Accounted(x: Shape, m: Metrics) {
    && LiveCounted(x, m)
    && ClassesCounted(x, m)
    && BlocksCounted(x)
    && m.allocatedBytes == m.usedBytes + m.freeBytes + m.internalFragmentation
  }

  // ---- Steps on the counters ----

  function MetricsAfterGrow(m: Metrics): Metrics {
    m.(allocatedBytes := m.allocatedBytes + SLAB_SIZE,
       freeBytes := m.freeBytes + SLAB_SIZE,
       slabCount := m.slabCount + 1)
  }

  function MetricsAfterTake(m: Metrics, size: nat, classSize: nat): Metrics
    requires classSize <= m.freeBytes && size <= classSize
  {
    m.(usedBytes := m.usedBytes + size,
       freeBytes := m.freeBytes - classSize,
       internalFragmentation := m.internalFragmentation + (classSize - size),
       allocationCount := m.allocationCount + 1)
  }

  function MetricsAfterGive(m: Metrics, size: nat, classSize: nat): Metrics
    requires size <= m.usedBytes && size <= classSize && classSize - size <= m.internalFragmentation
  {
    m.(usedBytes := m.usedBytes - size,
       freeBytes := m.freeBytes + classSize,
       internalFragmentation := m.internalFragmentation - (classSize - size),
       deallocationCount := m.deallocationCount + 1)
  }

  function MetricsAfterTakeDirect(m: Metrics, size: nat): Metrics {
    m.(allocatedBytes := m.allocatedBytes + size,
       usedBytes := m.usedBytes + size,
       allocationCount := m.allocationCount + 1)
  }

  function MetricsAfterGiveDirect(m: Metrics, size: nat): Metrics
    requires size <= m.usedBytes && size <= m.allocatedBytes
  {
    m.(allocatedBytes := m.allocatedBytes - size,
       usedBytes := m.usedBytes - size,
       deallocationCount := m.deallocationCount + 1)
  }

  // ---- Live blocks ----

  lemma SizesInsert(blocks: map<nat, seq<Cell>>, p: nat, contents: seq<Cell>)
    requires p !in blocks
    ensures Sum(Sizes(blocks[p := contents])) == Sum(Sizes(blocks)) + |contents|
    ensures |blocks[p := contents]| == |blocks| + 1
  {
    assert Sizes(blocks[p := contents]) == Sizes(blocks)[p := |contents|];
    SumInsert(Sizes(blocks), p, |contents|);
  }

  lemma SizesRemove(blocks: map<nat, seq<Cell>>, p: nat)
    requires p in blocks
    ensures Sum(Sizes(blocks)) == Sum(Sizes(blocks - {p})) + |blocks[p]|
    ensures |blocks| == |blocks - {p}| + 1
  {
    assert Sizes(blocks - {p}) == Sizes(blocks) - {p};
    SumRemove(Sizes(blocks), p);
    assert (blocks - {p}).Keys == blocks.Keys - {p};
  }

  lemma SlackInsert(x: Shape, y: Shape, p: nat)
    requires p !in x.blocks && p in y.blocks && p in y.extents && |y.blocks[p]| <= y.extents[p].bytes
    requires y.blocks == x.blocks[p := y.blocks[p]]
    requires forall q :: q in x.blocks ==> q in x.extents && q in y.extents && y.extents[q] == x.extents[q]
    ensures Sum(Slack(y)) == Sum(Slack(x)) + (y.extents[p].bytes - |y.blocks[p]|)
  {
    var slack := y.extents[p].bytes - |y.blocks[p]|;
    assert Slack(y) == Slack(x)[p := slack];
    SumInsert(Slack(x), p, slack);
  }

  lemma SlackRemove(x: Shape, y: Shape, p: nat)
    requires p in x.blocks && p in x.extents && |x.blocks[p]| <= x.extents[p].bytes && y.blocks == x.blocks - {p}
    requires forall q :: q in y.blocks ==> q in x.extents && q in y.extents && y.extents[q] == x.extents[q]
    ensures Sum(Slack(x)) == Sum(Slack(y)) + (x.extents[p].bytes - |x.blocks[p]|)
  {
    assert Slack(y) == Slack(x) - {p};
    SumRemove(Slack(x), p);
  }

  // ---- Every step keeps the accounts ----

  /** A non-empty free list is backed by at least one block's worth of free bytes. */
  lemma {:induction false} FreeBytesCover(frees: seq<seq<nat>>, n: nat, i: nat)
    requires i < n <= |frees| && frees[i] != []
    ensures ClassSize(i) <= FreeBytes(frees, n)
  {
    if i != n - 1 {
      FreeBytesCover(frees, n - 1, i);
    }
  }

  /** The block at the head of a free list, as the accounts see it. */
  ghost predicate Ready(x: Shape, i: nat, p: nat) {
    p in x.extents && p !in x.blocks && x.extents[p] == Extent(ClassSize(i), i)
  }

  lemma HeadIsReady(x: Shape, i: nat)
    requires LayoutOk(x) && ListsOk(x) && i < CLASS_COUNT && x.frees[i] != []
    ensures Ready(x, i, x.frees[i][0])
  {
    assert OnList(x, x.frees[i], i) && Labelled(x.extents, x.slabs[i], i) && x.frees[i][0] in x.frees[i];
  }

  lemma LiveInsert(x: Shape, y: Shape, i: nat, p: nat)
    requires p !in x.blocks && y.blocks.Keys == x.blocks.Keys + {p} && y.extents == x.extents
    requires p in x.extents && x.extents[p].index == i
    ensures forall j: nat :: j != i ==> LiveOf(y, j) == LiveOf(x, j)
    ensures |LiveOf(y, i)| == |LiveOf(x, i)| + 1
  {
    assert p !in LiveOf(x, i) && LiveOf(y, i) == LiveOf(x, i) + {p};
  }

  lemma TakeLiveOf(x: Shape, i: nat, size: nat)
    requires |x.heads| == |x.frees| == CLASS_COUNT
    requires i < CLASS_COUNT && x.frees[i] != [] && Ready(x, i, x.frees[i][0])
    ensures |LiveOf(Take(x, i, size), i)| == |LiveOf(x, i)| + 1
    ensures forall j: nat :: j < CLASS_COUNT && j != i ==> LiveOf(Take(x, i, size), j) == LiveOf(x, j)
  {
    var y, p := Take(x, i, size), x.frees[i][0];
    assert y.blocks.Keys == x.blocks.Keys + {p} && y.extents == x.extents;
    hide LiveOf, Take;
    LiveInsert(x, y, i, p);
  }

  lemma TakeBlocks(x: Shape, i: nat, size: nat)
    requires |x.heads| == CLASS_COUNT && BlocksCounted(x)
    requires i < CLASS_COUNT && x.frees[i] != [] && Ready(x, i, x.frees[i][0])
    ensures BlocksCounted(Take(x, i, size))
  {
    var y := Take(x, i, size);
    TakeLiveOf(x, i, size);
    forall j | 0 <= j < CLASS_COUNT ensures |y.frees[j]| + |LiveOf(y, j)| == Times(|y.slabs[j]|, PerSlab(j)) {
      assert j != i ==> LiveOf(y, j) == LiveOf(x, j);
    }
  }

  lemma {:induction false} TakeLive(x: Shape, i: nat, size: nat, m: Metrics)
    requires |x.heads| == |x.frees| == CLASS_COUNT && Placed(x) && LiveCounted(x, m)
    requires i < CLASS_COUNT && x.frees[i] != [] && Ready(x, i, x.frees[i][0])
    requires 0 < size <= ClassSize(i) <= m.freeBytes
    ensures LiveCounted(Take(x, i, size), MetricsAfterTake(m, size, ClassSize(i)))
  {
    hide IsExtentOf, Sum, Sizes, Slack;
    var y, p := Take(x, i, size), x.frees[i][0];
    SizesInsert(x.blocks, p, y.blocks[p]);
    SlackInsert(x, y, p);
  }

  lemma {:induction false} TakeClasses(x: Shape, i: nat, size: nat, m: Metrics)
    requires |x.heads| == CLASS_COUNT && ClassesCounted(x, m) && i < CLASS_COUNT && x.frees[i] != []
    requires size <= ClassSize(i)
    ensures ClassSize(i) <= m.freeBytes
    ensures ClassesCounted(Take(x, i, size), MetricsAfterTake(m, size, ClassSize(i)))
  {
    FreeBytesCover(x.frees, CLASS_COUNT, i);
    FreeBytesUpdate(x.frees, CLASS_COUNT, i, x.frees[i][1..]);
  }

  lemma {:induction false} TakeAccounted(x: Shape, i: nat, size: nat, m: Metrics)
    requires Sound(x) && Accounted(x, m) && i < CLASS_COUNT && x.frees[i] != []
    requires 0 < size <= ClassSize(i)
    ensures ClassSize(i) <= m.freeBytes
    ensures Accounted(Take(x, i, size), MetricsAfterTake(m, size, ClassSize(i)))
  {
    HeadIsReady(x, i);
    TakeClasses(x, i, size, m);
    TakeBlocks(x, i, size);
    TakeLive(x, i, size, m);
  }

  lemma GiveBlocks(x: Shape, p: nat)
    requires ListsOk(x) && |x.heads| == CLASS_COUNT && BlocksCounted(x)
    requires p in x.blocks && p in x.extents && 0 <= x.extents[p].index < CLASS_COUNT
    ensures BlocksCounted(Give(x, p))
    ensures forall j: nat :: j < CLASS_COUNT ==> LiveOf(Give(x, p), j) <= LiveOf(x, j)
  {
    var y, i := Give(x, p), x.extents[p].index;
    forall j | 0 <= j < CLASS_COUNT ensures |y.frees[j]| + |LiveOf(y, j)| == Times(|y.slabs[j]|, PerSlab(j)) {
      if j == i {
        assert LiveOf(y, j) == LiveOf(x, j) - {p} && p in LiveOf(x, j);
      } else {
        assert LiveOf(y, j) == LiveOf(x, j);
      }
    }
  }

  lemma GiveLive(x: Shape, p: nat, m: Metrics)
    requires Placed(x) && LiveCounted(x, m) && |x.heads| == |x.frees| == CLASS_COUNT
    requires p in x.blocks && 0 <= x.extents[p].index < CLASS_COUNT
    ensures |x.blocks[p]| <= m.usedBytes && x.extents[p].bytes - |x.blocks[p]| <= m.internalFragmentation
    ensures LiveCounted(Give(x, p), MetricsAfterGive(m, |x.blocks[p]|, x.extents[p].bytes))
  {
    SizesRemove(x.blocks, p);
    SlackRemove(x, Give(x, p), p);
  }

  lemma GiveClasses(x: Shape, p: nat, m: Metrics, m': Metrics)
    requires |x.heads| == CLASS_COUNT && ClassesCounted(x, m)
    requires p in x.extents && 0 <= x.extents[p].index < CLASS_COUNT
    requires m'.freeBytes == m.freeBytes + ClassSize(x.extents[p].index) && m'.slabCount == m.slabCount
    ensures ClassesCounted(Give(x, p), m')
  {
    var i := x.extents[p].index;
    FreeBytesUpdate(x.frees, CLASS_COUNT, i, [p] + x.frees[i]);
  }

  lemma GiveAccounted(x: Shape, p: nat, m: Metrics)
    requires Sound(x) && Accounted(x, m) && p in x.blocks && 0 <= x.extents[p].index < CLASS_COUNT
    ensures var size, classSize := |x.blocks[p]|, x.extents[p].bytes;
            && classSize == ClassSize(x.extents[p].index)
            && size <= m.usedBytes && classSize - size <= m.internalFragmentation
            && Accounted(Give(x, p), MetricsAfterGive(m, size, classSize))
  {
    assert x.extents[p].bytes == ClassSize(x.extents[p].index) by {
      assert Labelled(x.extents, x.slabs[x.extents[p].index], x.extents[p].index);
    }
    GiveBlocks(x, p);
    GiveLive(x, p, m);
    GiveClasses(x, p, m, MetricsAfterGive(m, |x.blocks[p]|, x.extents[p].bytes));
  }

  lemma SameLive(x: Shape, y: Shape)
    requires y.blocks.Keys == x.blocks.Keys
    requires forall p :: p in x.blocks ==>
               p in x.extents && p in y.extents && y.extents[p] == x.extents[p] && |y.blocks[p]| == |x.blocks[p]|
    ensures Sizes(y.blocks) == Sizes(x.blocks) && Slack(y) == Slack(x) && |y.blocks| == |x.blocks|
    ensures forall i: nat :: LiveOf(y, i) == LiveOf(x, i)
  {
    assert |y.blocks.Keys| == |x.blocks.Keys|;
    forall i: nat ensures LiveOf(y, i) == LiveOf(x, i) {
    }
  }

  lemma GrowBlocks(x: Shape, i: nat, base: nat, cells: Cells)
    requires BlocksCounted(x) && |x.heads| == CLASS_COUNT && i < CLASS_COUNT && x.frees[i] == []
    requires forall j: nat :: j < CLASS_COUNT ==> LiveOf(Grow(x, i, base, cells), j) == LiveOf(x, j)
    ensures BlocksCounted(Grow(x, i, base, cells))
  {
    var y := Grow(x, i, base, cells);
    forall j | 0 <= j < CLASS_COUNT ensures |y.frees[j]| + |LiveOf(y, j)| == Times(|y.slabs[j]|, PerSlab(j)) {
      assert LiveOf(y, j) == LiveOf(x, j);
    }
  }

  lemma {:induction false} GrowAccounted(x: Shape, i: nat, base: nat, cells: Cells, m: Metrics)
    requires Placed(x) && Accounted(x, m) && |x.heads| == CLASS_COUNT && i < CLASS_COUNT && x.frees[i] == []
    requires forall p :: p in SlabBlocks(base, ClassSize(i), PerSlab(i)) ==> p !in x.extents
    ensures Accounted(Grow(x, i, base, cells), MetricsAfterGrow(m))
  {
    var y := Grow(x, i, base, cells);
    SameLive(x, y);
    GrowBlocks(x, i, base, cells);
    FreeBytesUpdate(x.frees, CLASS_COUNT, i, y.frees[i]);
    SlabTotalUpdate(x.slabs, CLASS_COUNT, i, y.slabs[i]);
    assert Times(|y.frees[i]|, ClassSize(i)) == SLAB_SIZE by {
      TimesClass(i);
    }
  }

  /** Blocks taken from the heap directly belong to no class. */
  lemma DirectClasses(x: Shape, y: Shape, p: nat)
    requires forall q :: q in x.extents && q != p ==> q in y.extents && y.extents[q] == x.extents[q]
    requires forall q :: q in y.extents && q != p ==> q in x.extents
    requires forall q :: q != p ==> (q in x.blocks <==> q in y.blocks)
    requires p in x.extents ==> x.extents[p].index == -1
    requires p in y.extents ==> y.extents[p].index == -1
    ensures forall j: nat :: LiveOf(y, j) == LiveOf(x, j)
  {
    forall j: nat ensures LiveOf(y, j) == LiveOf(x, j) {
    }
  }

  lemma SameBlocksCounted(x: Shape, y: Shape)
    requires BlocksCounted(x) && y.frees == x.frees && y.slabs == x.slabs
    requires forall j: nat :: LiveOf(y, j) == LiveOf(x, j)
    ensures BlocksCounted(y)
  {
    forall j | 0 <= j < CLASS_COUNT ensures |y.frees[j]| + |LiveOf(y, j)| == Times(|y.slabs[j]|, PerSlab(j)) {
      assert LiveOf(y, j) == LiveOf(x, j);
    }
  }

  lemma TakeDirectAccounted(x: Shape, p: nat, size: nat, m: Metrics)
    requires Placed(x) && Accounted(x, m) && p !in x.extents && p !in x.blocks
    ensures Accounted(TakeDirect(x, p, size), MetricsAfterTakeDirect(m, size))
    ensures forall j: nat :: LiveOf(TakeDirect(x, p, size), j) == LiveOf(x, j)
  {
    var y := TakeDirect(x, p, size);
    TakeDirectLive(x, p, size, m);
    DirectClasses(x, y, p);
    SameBlocksCounted(x, y);
  }

  lemma TakeDirectLive(x: Shape, p: nat, size: nat, m: Metrics)
    requires Placed(x) && LiveCounted(x, m) && p !in x.extents && p !in x.blocks
    ensures LiveCounted(TakeDirect(x, p, size), MetricsAfterTakeDirect(m, size))
  {
    LiveInsertDirect(x, TakeDirect(x, p, size), p, m);
  }

  lemma LiveInsertDirect(x: Shape, y: Shape, p: nat, m: Metrics)
    requires Placed(x) && LiveCounted(x, m) && p !in x.extents && p !in x.blocks && p in y.blocks
    requires y.blocks == x.blocks[p := y.blocks[p]] && y.extents == x.extents[p := Extent(|y.blocks[p]|, -1)]
    ensures LiveCounted(y, MetricsAfterTakeDirect(m, |y.blocks[p]|))
  {
    SizesInsert(x.blocks, p, y.blocks[p]);
    SlackInsert(x, y, p);
  }

  lemma GiveDirectLive(x: Shape, p: nat, m: Metrics)
    requires Placed(x) && LiveCounted(x, m) && p in x.blocks && x.extents[p] == Extent(|x.blocks[p]|, -1)
    requires |x.blocks[p]| <= m.allocatedBytes
    ensures |x.blocks[p]| <= m.usedBytes
    ensures LiveCounted(GiveDirect(x, p), MetricsAfterGiveDirect(m, |x.blocks[p]|))
  {
    SizesRemove(x.blocks, p);
    SlackRemove(x, GiveDirect(x, p), p);
  }

  lemma GiveDirectAccounted(x: Shape, p: nat, m: Metrics)
    requires Placed(x) && Accounted(x, m) && p in x.blocks && x.extents[p] == Extent(|x.blocks[p]|, -1)
    ensures |x.blocks[p]| <= m.usedBytes && |x.blocks[p]| <= m.allocatedBytes
    ensures Accounted(GiveDirect(x, p), MetricsAfterGiveDirect(m, |x.blocks[p]|))
    ensures forall j: nat :: LiveOf(GiveDirect(x, p), j) == LiveOf(x, j)
  {
    var y := GiveDirect(x, p);
    hide Sum, Sizes, Slack, LiveOf, Placed, FreeBytes, SlabTotal, BlocksCounted;
    SizesRemove(x.blocks, p);
    GiveDirectLive(x, p, m);
    DirectRemoved(x, p);
    SameBlocksCounted(x, y);
  }

  lemma DirectRemoved(x: Shape, p: nat)
    requires p in x.extents && x.extents[p].index == -1
    ensures forall j: nat :: LiveOf(GiveDirect(x, p), j) == LiveOf(x, j)
  {
    hide LiveOf, Release;
    DirectClasses(x, GiveDirect(x, p), p);
  }

  lemma FillAccounted(x: Shape, p: nat, value: Bytes, m: Metrics)
    requires Placed(x) && Accounted(x, m) && p in x.blocks && |x.blocks[p]| == |value|
    ensures Accounted(Fill(x, p, value), m)
    ensures forall j: nat :: LiveOf(Fill(x, p, value), j) == LiveOf(x, j)
  {
    SameLive(x, Fill(x, p, value));
    SameBlocksCounted(x, Fill(x, p, value));
  }

  // ---- Slabs follow the peak ----

  /** `slabs` is the ceiling of `peak` over the number of blocks in a slab. */
  ghost predicate IsCeiling(slabs: nat, peak: nat, perSlab: nat) {
    && peak <= Times(slabs, perSlab)
    && (0 < slabs ==> Times(slabs - 1, perSlab) < peak)
  }

  /** Slabs are never given back, and are only added when a class has never needed so many blocks before. */
  ghost predicate PeaksOk(x: Shape, peaks: seq<nat>) {
    && |peaks| == |x.slabs| == CLASS_COUNT
    && forall i :: 0 <= i < CLASS_COUNT ==>
         |LiveOf(x, i)| <= peaks[i] && IsCeiling(|x.slabs[i]|, peaks[i], PerSlab(i))
  }

  ghost function Raise(peaks: seq<nat>, i: nat, live: nat): seq<nat>
    requires i < |peaks|
  {
    peaks[i := Max(peaks[i], live)]
  }

  /** An allocation from class `i`: `grown` says that a slab had to be added first. */
  lemma PeakAfterTake(x: Shape, y: Shape, i: nat, peaks: seq<nat>, grown: bool)
    requires BlocksCounted(x) && PeaksOk(x, peaks) && i < CLASS_COUNT
    requires |y.slabs| == CLASS_COUNT && forall j :: 0 <= j < CLASS_COUNT && j != i ==>
               LiveOf(y, j) == LiveOf(x, j) && y.slabs[j] == x.slabs[j]
    requires |LiveOf(y, i)| == |LiveOf(x, i)| + 1
    requires grown <==> x.frees[i] == []
    requires |y.slabs[i]| == |x.slabs[i]| + if grown then 1 else 0
    ensures PeaksOk(y, Raise(peaks, i, |LiveOf(y, i)|))
  {
    ClassFacts(i);
  }

  lemma PeakAfterOther(x: Shape, y: Shape, peaks: seq<nat>)
    requires PeaksOk(x, peaks) && y.slabs == x.slabs
    requires forall i :: 0 <= i < CLASS_COUNT ==> LiveOf(y, i) <= LiveOf(x, i)
    ensures PeaksOk(y, peaks)
  {
    forall i | 0 <= i < CLASS_COUNT ensures |LiveOf(y, i)| <= |LiveOf(x, i)| {
      assert LiveOf(y, i) <= LiveOf(x, i);
      SubsetSize(LiveOf(y, i), LiveOf(x, i));
    }
  }

  lemma SubsetSize(a: set<nat>, b: set<nat>)
    requires a <= b
    ensures |a| <= |b|
  {
    assert b == a + (b - a);
  }
}
