/**
 The value allocators: the slab allocator with its eight intrusive free lists,
 and the system allocator that passes every request to the heap.  Both give the
 cache the same contract, stated on `blocks`: a map from each live block to the
 bytes it holds.
 */
module ValueAllocators {
  import opened Basics
  import opened Memory
  import opened SlabModel
  import opened SlabAccounting

  lemma {:induction false} CarvedListStep(base: nat, size: nat, n: nat)
    ensures CarvedList(base, size, n + 1) == [base + Times(n, size)] + CarvedList(base, size, n)
  {
  }

  lemma NothingCarved(base: nat, size: nat, cells: Cells)
    ensures CarvedList(base, size, 0) == [] && Chained(cells, NULL, [])
  {
  }

  /** Blocks carved earlier lie entirely below the next one. */
  lemma {:induction false} CarvedListBelow(base: nat, size: nat, n: nat, p: nat)
    requires p in CarvedList(base, size, n)
    ensures p + size <= base + Times(n, size)
  {
    var k :| 0 <= k < n && p == CarvedList(base, size, n)[k];
    TimesStep(n - 1 - k, n, size);
  }

  /** One size class: a stack of free blocks threaded through the blocks themselves. */
  class SlabClass {
    const objectSize: nat
    const heap: Heap
    var freeHead: nat
    var slabs: seq<nat>

    ghost var free: seq<nat>

    constructor (objectSize: nat, heap: Heap)
      ensures this.objectSize == objectSize && this.heap == heap
      ensures freeHead == NULL && slabs == [] && free == []
    {
      this.objectSize, this.heap := objectSize, heap;
      freeHead, slabs, free := NULL, [], [];
    }

    method Deallocate(p: nat)
      requires p != NULL && Chained(heap.cells, freeHead, free)
      requires forall q :: q in free ==> q < p || p + NODE_SIZE <= q
      modifies this`freeHead, this`free, heap
      ensures heap.cells == PlaceNode(old(heap.cells), p, old(freeHead))
      ensures freeHead == p && free == [p] + old(free)
      ensures Chained(heap.cells, freeHead, free)
    {
      PlaceNodeOutside(heap.cells, p, freeHead, NODE_SIZE);
      ChainFrame(heap.cells, PlaceNode(heap.cells, p, freeHead), freeHead, free);
      ChainPush(PlaceNode(heap.cells, p, freeHead), p, freeHead, free);
      heap.cells := PlaceNode(heap.cells, p, freeHead);
      freeHead := p;
      free := [p] + free;
    }

    /** Reserves one slab and carves all of it into free blocks, without touching memory already in use. */
    method AddSlab(ghost count: nat) returns (base: nat)
      requires NODE_SIZE <= objectSize && count == SLAB_SIZE / objectSize && Times(count, objectSize) == SLAB_SIZE
      requires freeHead == NULL && free == []
      modifies this, heap
      ensures base != NULL && Aligned(base) && Unmapped(old(heap.cells), base, SLAB_SIZE)
      ensures Extends(old(heap.cells), heap.cells)
      ensures IsMapped(heap.cells, base, SLAB_SIZE)
      ensures slabs == old(slabs) + [base]
      ensures free == CarvedList(base, objectSize, count)
      ensures Chained(heap.cells, freeHead, free)
    {
      hide CarvedList, Times, Chained, Extends, PlaceNode, Unmapped, IsMapped;
      ghost var before := heap.cells;
      base := heap.New(SLAB_SIZE);
      FreshSlab(before, base);
      NothingCarved(base, objectSize, heap.cells);
      slabs := slabs + [base];

      var objectCount := SLAB_SIZE / objectSize;
      for index := 0 to objectCount
        invariant Extends(before, heap.cells)
        invariant IsMapped(heap.cells, base, SLAB_SIZE)
        invariant slabs == old(slabs) + [base]
        invariant free == CarvedList(base, objectSize, index)
        invariant Chained(heap.cells, freeHead, free)
      {
        var p := base + index * objectSize;
        assert p == base + Times(index, objectSize) by {
          TimesIsProduct(index, objectSize);
        }
        TimesStep(index, count, objectSize);
        CarvedListStep(base, objectSize, index);
        forall q | q in free ensures q < p || p + NODE_SIZE <= q {
          CarvedListBelow(base, objectSize, index, q);
        }
        NodeInFreshSlab(before, heap.cells, base, p, freeHead);
        Deallocate(p);
      }
    }

    /** Pops the head; `base` is the slab that had to be added first, if any. */
    method Allocate(ghost count: nat) returns (block: nat, ghost base: nat)
      requires NODE_SIZE <= objectSize && 0 < count == SLAB_SIZE / objectSize && Times(count, objectSize) == SLAB_SIZE
      requires Chained(heap.cells, freeHead, free)
      modifies this, heap
      ensures old(free) != [] ==>
                && slabs == old(slabs) && heap.cells == old(heap.cells)
                && [block] + free == old(free)
      ensures old(free) == [] ==>
                && slabs == old(slabs) + [base]
                && base != NULL && Aligned(base) && Unmapped(old(heap.cells), base, SLAB_SIZE)
                && Extends(old(heap.cells), heap.cells)
                && IsMapped(heap.cells, base, SLAB_SIZE)
                && [block] + free == CarvedList(base, objectSize, count)
                && Chained(heap.cells, block, [block] + free)
      ensures freeHead == First(free)
    {
      base := 0;
      if freeHead == NULL {
        base := AddSlab(count);
      }
      ChainPop(heap.cells, freeHead, free);
      block := freeHead;
      freeHead := heap.cells[block].next;
      assert [block] + free[1..] == free;
      free := free[1..];
    }
  }

  /** Carving writes only inside the slab it has just reserved. */
  lemma NodeInFreshSlab(before: Cells, cells: Cells, base: nat, p: nat, next: nat)
    requires Unmapped(before, base, SLAB_SIZE) && Extends(before, cells)
    requires base <= p && p + NODE_SIZE <= base + SLAB_SIZE
    ensures Extends(before, PlaceNode(cells, p, next))
    ensures IsMapped(cells, base, SLAB_SIZE) ==> IsMapped(PlaceNode(cells, p, next), base, SLAB_SIZE)
  {
    PlaceNodeOutside(cells, p, next, NODE_SIZE);
  }

  ghost predicate IsMapped(cells: Cells, base: nat, size: nat) {
    forall a :: base <= a < base + size ==> a in cells
  }

  lemma FreshSlab(before: Cells, base: nat)
    requires Unmapped(before, base, SLAB_SIZE)
    ensures Extends(before, Reserve(before, base, SLAB_SIZE))
    ensures IsMapped(Reserve(before, base, SLAB_SIZE), base, SLAB_SIZE)
  {
    ReserveExtends(before, base, SLAB_SIZE);
  }

  /** The smallest class that holds `size`. */
  method FindClass(size: nat) returns (index: nat)
    requires 0 < size <= LARGEST_CLASS
    ensures IsClassOf(index, size)
  {
    ClassTable();
    index := 0;
    while index < |SIZE_CLASSES|
      invariant 0 <= index <= |SIZE_CLASSES|
      invariant forall j: nat :: j < index ==> SIZE_CLASSES[j] < size
      invariant 0 < index ==> SIZE_CLASSES[index - 1] < size
    {
      if size <= SIZE_CLASSES[index] {
        return;
      }
      index := index + 1;
    }
    assert false;
  }

  /** What a request really reserves: nothing, its class, or itself when it is too large for any class. */
  method AllocationSize(requested: nat) returns (bytes: nat)
    ensures requested <= bytes
    ensures bytes == requested <==> requested == 0 || requested > LARGEST_CLASS || requested in SIZE_CLASSES
    ensures 0 < requested <= LARGEST_CLASS ==>
              bytes in SIZE_CLASSES && forall c :: c in SIZE_CLASSES && requested <= c ==> bytes <= c
  {
    if requested == 0 || requested > LARGEST_CLASS {
      return requested;
    }
    var index := FindClass(requested);
    ClassTable();
    bytes := SIZE_CLASSES[index];
    forall c | c in SIZE_CLASSES && requested <= c ensures bytes <= c {
      var k :| 0 <= k < |SIZE_CLASSES| && SIZE_CLASSES[k] == c;
      assert ClassSize(k) == c;
    }
  }

  // ---- A slab allocation is at most one growth followed by one pop ----

  ghost predicate GrownTo(x: Shape, i: nat, base: nat, cells: Cells) {
    var list := CarvedList(base, ClassSize(i), PerSlab(i));
    && base != NULL && Aligned(base) && Unmapped(x.cells, base, SLAB_SIZE)
    && Extends(x.cells, cells)
    && IsMapped(cells, base, SLAB_SIZE)
    && Chained(cells, First(list), list)
  }

  ghost function Prepared(x: Shape, i: nat, base: nat, cells: Cells): Shape
    requires |x.heads| == |x.frees| == |x.slabs| == CLASS_COUNT && i < CLASS_COUNT
  {
    if x.frees[i] == [] then Grow(x, i, base, cells) else x
  }

  ghost function MetricsPrepared(x: Shape, m: Metrics, i: nat): Metrics
    requires i < |x.frees|
  {
    if x.frees[i] == [] then MetricsAfterGrow(m) else m
  }

  lemma PreparedSound(x: Shape, i: nat, base: nat, cells: Cells)
    requires Sound(x) && i < CLASS_COUNT && (x.frees[i] == [] ==> GrownTo(x, i, base, cells))
    ensures Sound(Prepared(x, i, base, cells))
    ensures Prepared(x, i, base, cells).frees[i] != []
  {
    if x.frees[i] == [] {
      GrowSound(x, i, base, cells);
      ClassFacts(i);
      assert |Prepared(x, i, base, cells).frees[i]| == PerSlab(i);
    }
  }

  lemma PreparedAccounted(x: Shape, m: Metrics, i: nat, base: nat, cells: Cells)
    requires Sound(x) && Accounted(x, m) && i < CLASS_COUNT && (x.frees[i] == [] ==> GrownTo(x, i, base, cells))
    requires |x.heads| == |x.frees| == |x.slabs| == CLASS_COUNT
    ensures Accounted(Prepared(x, i, base, cells), MetricsPrepared(x, m, i))
    ensures forall j: nat :: LiveOf(Prepared(x, i, base, cells), j) == LiveOf(x, j)
  {
    hide Accounted, ListsOk, MemoryOk, Spaced, Labelled;
    if x.frees[i] == [] {
      assert |x.heads| == CLASS_COUNT && x.frees[i] == [];
      GrowSpaced(x, i, base, cells);
      GrowAccounted(x, i, base, cells, m);
      SameLive(x, Grow(x, i, base, cells));
    }
  }

  lemma PreparedPeaks(x: Shape, peaks: seq<nat>, i: nat, size: nat, base: nat, cells: Cells)
    requires |x.heads| == CLASS_COUNT && BlocksCounted(x) && PeaksOk(x, peaks) && i < CLASS_COUNT
    requires var y := Prepared(x, i, base, cells);
             y.frees[i] != [] && Ready(y, i, y.frees[i][0]) && forall j: nat :: LiveOf(y, j) == LiveOf(x, j)
    ensures var z := Take(Prepared(x, i, base, cells), i, size);
            PeaksOk(z, Raise(peaks, i, |LiveOf(z, i)|))
  {
    var y := Prepared(x, i, base, cells);
    TakeLiveOf(y, i, size);
    PeakAfterTake(x, Take(y, i, size), i, peaks, x.frees[i] == []);
  }

  /** Memory safety, exact accounts and minimal slab counts, together. */
  ghost predicate Healthy(x: Shape, m: Metrics, peaks: seq<nat>) {
    Sound(x) && Accounted(x, m) && PeaksOk(x, peaks)
  }

  /** Peaks are running maxima of the live counts. */
  ghost predicate PeaksTrack(before: seq<nat>, peaks: seq<nat>, x: Shape) {
    && |before| == |peaks| == CLASS_COUNT
    && forall i :: 0 <= i < CLASS_COUNT ==> peaks[i] == Max(before[i], |LiveOf(x, i)|)
  }

  lemma PeaksStay(x: Shape, m: Metrics, peaks: seq<nat>)
    requires Healthy(x, m, peaks)
    ensures PeaksTrack(peaks, peaks, x)
  {
    hide Sound, Accounted, LiveOf, IsCeiling;
  }

  lemma PeaksRaised(x: Shape, m: Metrics, peaks: seq<nat>, i: nat)
    requires |peaks| == CLASS_COUNT && i < CLASS_COUNT && Healthy(x, m, Raise(peaks, i, |LiveOf(x, i)|))
    ensures PeaksTrack(peaks, Raise(peaks, i, |LiveOf(x, i)|), x)
  {
    hide Sound, Accounted, LiveOf, IsCeiling;
  }

  lemma {:induction false} TakenHealthy(x: Shape, m: Metrics, peaks: seq<nat>, i: nat, size: nat, base: nat, cells: Cells)
    requires Healthy(x, m, peaks) && x.backend.Slab? && 0 < size <= LARGEST_CLASS && IsClassOf(i, size)
    requires x.frees[i] == [] ==> GrownTo(x, i, base, cells)
    ensures var y := Prepared(x, i, base, cells);
            && |y.heads| == |y.frees| == |y.slabs| == |peaks| == CLASS_COUNT
            && y.frees[i] != [] && y.frees[i][0] != NULL && y.frees[i][0] !in x.blocks
    ensures ClassSize(i) <= MetricsPrepared(x, m, i).freeBytes
    ensures var z := Take(Prepared(x, i, base, cells), i, size);
            Healthy(z, MetricsAfterTake(MetricsPrepared(x, m, i), size, ClassSize(i)), Raise(peaks, i, |LiveOf(z, i)|))
  {
    var y := Prepared(x, i, base, cells);
    PreparedSound(x, i, base, cells);
    PreparedAccounted(x, m, i, base, cells);
    HeadIsReady(y, i);
    PreparedPeaks(x, peaks, i, size, base, cells);
    TakeSound(y, i, size);
    TakeAccounted(y, i, size, MetricsPrepared(x, m, i));
  }

  lemma TakenDirectHealthy(x: Shape, m: Metrics, peaks: seq<nat>, p: nat, size: nat)
    requires Healthy(x, m, peaks) && 0 < size && (x.backend.System? || LARGEST_CLASS < size)
    requires p != NULL && Aligned(p) && Unmapped(x.cells, p, size)
    ensures p !in x.blocks
    ensures Healthy(TakeDirect(x, p, size), MetricsAfterTakeDirect(m, size), peaks)
  {
    TakeDirectSound(x, p, size);
    TakeDirectAccounted(x, p, size, m);
    PeakAfterOther(x, TakeDirect(x, p, size), peaks);
  }

  lemma GivenDirectHealthy(x: Shape, m: Metrics, peaks: seq<nat>, p: nat)
    requires Healthy(x, m, peaks) && p in x.blocks && (x.backend.System? || LARGEST_CLASS < |x.blocks[p]|)
    ensures p in x.extents && x.extents[p].bytes == |x.blocks[p]|
    ensures |x.blocks[p]| <= m.usedBytes && |x.blocks[p]| <= m.allocatedBytes
    ensures Healthy(GiveDirect(x, p), MetricsAfterGiveDirect(m, |x.blocks[p]|), peaks)
  {
    GiveDirectSound(x, p);
    GiveDirectAccounted(x, p, m);
    PeakAfterOther(x, GiveDirect(x, p), peaks);
  }

  lemma {:induction false} GivenHealthy(x: Shape, m: Metrics, peaks: seq<nat>, p: nat, i: nat)
    requires Healthy(x, m, peaks) && p in x.blocks && x.backend.Slab? && IsClassOf(i, |x.blocks[p]|)
    requires |x.blocks[p]| <= LARGEST_CLASS
    ensures |x.heads| == |x.frees| == CLASS_COUNT && p in x.extents && x.extents[p].index == i
    ensures p != NULL && Chained(x.cells, x.heads[i], x.frees[i])
    ensures forall q :: q in x.frees[i] ==> q < p || p + NODE_SIZE <= q
    ensures |x.blocks[p]| <= m.usedBytes && ClassSize(i) - |x.blocks[p]| <= m.internalFragmentation
    ensures Healthy(Give(x, p), MetricsAfterGive(m, |x.blocks[p]|, ClassSize(i)), peaks)
  {
    ClassIsUnique(i, x.extents[p].index, |x.blocks[p]|);
    GiveSound(x, p);
    GiveAccounted(x, p, m);
    GiveBlocks(x, p);
    PeakAfterOther(x, Give(x, p), peaks);
    GiveIsClear(x, p, i);
  }

  lemma ClassIsUnique(i: nat, j: nat, size: nat)
    requires IsClassOf(i, size) && IsClassOf(j, size)
    ensures i == j
  {
  }

  lemma FilledHealthy(x: Shape, m: Metrics, peaks: seq<nat>, p: nat, value: Bytes)
    requires Healthy(x, m, peaks) && p in x.blocks && |x.blocks[p]| == |value|
    ensures Healthy(Fill(x, p, value), m, peaks)
  {
    FillSound(x, p, value);
    FillAccounted(x, p, value, m);
    PeakAfterOther(x, Fill(x, p, value), peaks);
  }

  /** The links of a free list lie outside any live block. */
  lemma GiveIsClear(x: Shape, p: nat, i: nat)
    requires Sound(x) && p in x.blocks && i < CLASS_COUNT && x.extents[p].index == i
    ensures forall q :: q in x.frees[i] ==> q < p || p + NODE_SIZE <= q
    ensures Chained(x.cells, x.heads[i], x.frees[i]) && p != NULL
  {
    assert OnList(x, x.frees[i], i) && Labelled(x.extents, x.slabs[i], i);
    ClassFacts(i);
  }

  lemma HealthyHead(x: Shape, m: Metrics, peaks: seq<nat>, i: nat)
    requires Healthy(x, m, peaks) && i < CLASS_COUNT
    ensures Chained(x.cells, x.heads[i], x.frees[i])
  {
  }

  lemma HealthyBlock(x: Shape, m: Metrics, peaks: seq<nat>, p: nat)
    requires Healthy(x, m, peaks) && p in x.blocks
    ensures p != NULL && 0 < |x.blocks[p]|
  {
  }

  /** Reading a live block returns what was stored. */
  lemma ReadsBack(x: Shape, m: Metrics, peaks: seq<nat>, p: nat)
    requires Healthy(x, m, peaks) && p in x.blocks
    ensures Contents(x.cells, p, |x.blocks[p]|) == x.blocks[p]
  {
    assert Faithful(x.blocks, x.cells);
    FaithfulContents(x.blocks, x.cells, p);
  }

  lemma FaithfulContents(blocks: map<nat, seq<Cell>>, cells: Cells, p: nat)
    requires Faithful(blocks, cells) && p in blocks
    ensures Contents(cells, p, |blocks[p]|) == blocks[p]
  {
  }

  // ---- The allocator object ----

  method MakeClasses(heap: Heap) returns (classes: seq<SlabClass>)
    ensures |classes| == CLASS_COUNT
    ensures forall i :: 0 <= i < CLASS_COUNT ==>
              && fresh(classes[i]) && classes[i].heap == heap && classes[i].objectSize == ClassSize(i)
              && classes[i].freeHead == NULL && classes[i].slabs == [] && classes[i].free == []
    ensures forall i, j :: 0 <= i < j < CLASS_COUNT ==> classes[i] != classes[j]
  {
    classes := [];
    ClassTable();
    for index := 0 to CLASS_COUNT
      invariant |classes| == index
      invariant forall i :: 0 <= i < index ==>
                  && fresh(classes[i]) && classes[i].heap == heap && classes[i].objectSize == ClassSize(i)
                  && classes[i].freeHead == NULL && classes[i].slabs == [] && classes[i].free == []
      invariant forall i, j :: 0 <= i < j < index ==> classes[i] != classes[j]
    {
      var class_ := new SlabClass(SIZE_CLASSES[index], heap);
      classes := classes + [class_];
    }
  }

  /** What has ever been asked of an allocator: the most live blocks of each class at once, and how many allocations. */
  datatype Demand = Demand(peaks: seq<nat>, allocations: nat)

  class ValueAllocator {
    const backend: Backend
    const heap: Heap
    const classes: seq<SlabClass>
    var metrics: Metrics

    ghost var shape: Shape
    ghost var peaks: seq<nat>
    ghost const Repr: set<object>

    /** The live blocks and their contents: all that callers need to know. */
    ghost function Blocks(): map<nat, seq<Cell>>
      reads this
    {
      shape.blocks
    }

    ghost function Asked(): Demand
      reads this
    {
      Demand(peaks, metrics.allocationCount)
    }

    ghost predicate Wired() {
      && this in Repr && heap in Repr
      && |classes| == CLASS_COUNT
      && (forall i :: 0 <= i < CLASS_COUNT ==>
            classes[i] in Repr && classes[i].heap == heap && classes[i].objectSize == ClassSize(i))
      && (forall i, j :: 0 <= i < j < CLASS_COUNT ==> classes[i] != classes[j])
    }

    /** The shape is what the objects hold. */
    ghost predicate Mirrored()
      requires Wired()
      reads Repr
    {
      && shape.backend == backend
      && shape.cells == heap.cells
      && |shape.heads| == |shape.frees| == |shape.slabs| == CLASS_COUNT
      && forall i :: 0 <= i < CLASS_COUNT ==>
           && classes[i].freeHead == shape.heads[i]
           && classes[i].free == shape.frees[i]
           && classes[i].slabs == shape.slabs[i]
    }

    ghost predicate Valid()
      reads Repr
    {
      Wired() && Mirrored() && Healthy(shape, metrics, peaks)
    }

    constructor (backend: Backend)
      ensures Valid() && fresh(Repr) && this in Repr
      ensures this.backend == backend && Blocks() == map[]
      ensures metrics == Metrics(0, 0, 0, 0, 0, 0, 0) && peaks == seq(CLASS_COUNT, _ => 0)
    {
      hide Healthy;
      var heap := new Heap();
      var classes := MakeClasses(heap);
      this.backend, this.heap, this.classes := backend, heap, classes;
      metrics := Metrics(0, 0, 0, 0, 0, 0, 0);
      shape := EmptyShape(backend);
      peaks := seq(CLASS_COUNT, _ => 0);
      Repr := {this, heap} + set c | c in classes;
      EmptyHealthy(backend, seq(CLASS_COUNT, _ => 0));
    }

    /** The contract every caller sees when a block is taken. */
    method Allocate(size: nat) returns (p: nat)
      requires Valid()
      modifies Repr
      ensures Valid()
      ensures size == 0 ==> p == NULL && Blocks() == old(Blocks()) && metrics == old(metrics) && peaks == old(peaks)
      ensures size != 0 ==> Taken(old(Blocks()), old(metrics), Blocks(), metrics, p, size)
      ensures PeaksTrack(old(peaks), peaks, shape)
    {
      hide Healthy, PeaksTrack;
      if size == 0 {
        PeaksStay(shape, metrics, peaks);
        return NULL;
      }
      if backend.System? || size > LARGEST_CLASS {
        p := AllocateDirect(size);
      } else {
        p := AllocateFromClass(size);
      }
    }

    method AllocateDirect(size: nat) returns (p: nat)
      requires Valid() && 0 < size && (backend.System? || LARGEST_CLASS < size)
      modifies Repr
      ensures Valid()
      ensures Taken(old(Blocks()), old(metrics), Blocks(), metrics, p, size)
      ensures metrics == MetricsAfterTakeDirect(old(metrics), size)
      ensures PeaksTrack(old(peaks), peaks, shape)
    {
      hide Healthy, PeaksTrack;
      p := heap.New(size);
      TakenDirectHealthy(shape, metrics, peaks, p, size);
      metrics := metrics.(allocatedBytes := metrics.allocatedBytes + size,
                          usedBytes := metrics.usedBytes + size,
                          allocationCount := metrics.allocationCount + 1);
      shape := TakeDirect(shape, p, size);
      PeaksStay(shape, metrics, peaks);
    }

    method AllocateFromClass(size: nat) returns (p: nat)
      requires Valid() && 0 < size <= LARGEST_CLASS && backend.Slab?
      modifies Repr
      ensures Valid()
      ensures Taken(old(Blocks()), old(metrics), Blocks(), metrics, p, size)
      ensures PeaksTrack(old(peaks), peaks, shape)
    {
      hide PeaksTrack, Healthy, GrownTo, Prepared, LiveOf, IsClassOf, Raise;
      var index := FindClass(size);
      var classSize := classes[index].objectSize;
      var slabsBefore := |classes[index].slabs|;
      ghost var base, y;
      p, base, y := AllocateIn(index);
      TakenHealthy(shape, metrics, peaks, index, size, base, heap.cells);
      RecordTake(size, classSize, |classes[index].slabs| != slabsBefore);
      shape := Take(y, index, size);
      ghost var before := peaks;
      peaks := Raise(peaks, index, |LiveOf(shape, index)|);
      PeaksRaised(shape, metrics, before, index);
    }

    /** The metrics of one allocation from a class, with or without a new slab. */
    method RecordTake(size: nat, classSize: nat, grown: bool)
      requires size <= classSize <= (if grown then MetricsAfterGrow(metrics) else metrics).freeBytes
      modifies this`metrics
      ensures metrics == MetricsAfterTake(if grown then MetricsAfterGrow(old(metrics)) else old(metrics), size, classSize)
    {
      if grown {
        metrics := metrics.(allocatedBytes := metrics.allocatedBytes + SLAB_SIZE,
                            freeBytes := metrics.freeBytes + SLAB_SIZE,
                            slabCount := metrics.slabCount + 1);
      }
      metrics := metrics.(usedBytes := metrics.usedBytes + size,
                          freeBytes := metrics.freeBytes - classSize,
                          internalFragmentation := metrics.internalFragmentation + (classSize - size),
                          allocationCount := metrics.allocationCount + 1);
    }

    /** One class serves a request; the other classes are not touched. */
    method AllocateIn(index: nat) returns (p: nat, ghost base: nat, ghost y: Shape)
      requires Valid() && index < CLASS_COUNT
      modifies classes[index], heap
      ensures shape.frees[index] == [] ==> GrownTo(shape, index, base, heap.cells)
      ensures y == Prepared(shape, index, base, heap.cells)
      ensures y.blocks == shape.blocks && y.backend == shape.backend && y.cells == heap.cells
      ensures |y.heads| == |y.frees| == |y.slabs| == CLASS_COUNT
      ensures forall j :: 0 <= j < CLASS_COUNT && j != index ==>
                y.heads[j] == shape.heads[j] && y.frees[j] == shape.frees[j] && y.slabs[j] == shape.slabs[j]
      ensures [p] + classes[index].free == y.frees[index]
      ensures classes[index].freeHead == First(classes[index].free)
      ensures classes[index].slabs == y.slabs[index]
      ensures |classes[index].slabs| == old(|classes[index].slabs|) <==> shape.frees[index] != []
    {
      hide Healthy;
      HealthyHead(shape, metrics, peaks, index);
      ClassFacts(index);
      ClassProduct(index);
      TimesClass(index);
      p, base := classes[index].Allocate(PerSlab(index));
      y := Prepared(shape, index, base, heap.cells);
    }

    /** Returns a block; `size` must be the size it was requested with. */
    method Deallocate(p: nat, size: nat)
      requires Valid()
      requires if p == NULL then size == 0 else p in Blocks() && |Blocks()[p]| == size
      modifies Repr
      ensures Valid()
      ensures p == NULL ==> Blocks() == old(Blocks()) && metrics == old(metrics)
      ensures p != NULL ==> Given(old(Blocks()), old(metrics), Blocks(), metrics, p)
      ensures PeaksTrack(old(peaks), peaks, shape) && peaks == old(peaks)
    {
      hide Healthy, PeaksTrack;
      if p == NULL {
        PeaksStay(shape, metrics, peaks);
        return;
      }
      if backend.System? || size > LARGEST_CLASS {
        GivenDirectHealthy(shape, metrics, peaks, p);
        heap.cells := Release(heap.cells, p, size);
        metrics := metrics.(allocatedBytes := metrics.allocatedBytes - size,
                            usedBytes := metrics.usedBytes - size,
                            deallocationCount := metrics.deallocationCount + 1);
        shape := GiveDirect(shape, p);
        PeaksStay(shape, metrics, peaks);
      } else {
        HealthyBlock(shape, metrics, peaks, p);
        DeallocateToClass(p, size);
      }
    }

    method DeallocateToClass(p: nat, size: nat)
      requires Valid() && p in Blocks() && 0 < |Blocks()[p]| == size <= LARGEST_CLASS && backend.Slab?
      modifies Repr
      ensures Valid()
      ensures Given(old(Blocks()), old(metrics), Blocks(), metrics, p)
      ensures PeaksTrack(old(peaks), peaks, shape) && peaks == old(peaks)
    {
      hide Healthy, PeaksTrack;
      var index := FindClass(size);
      var classSize := classes[index].objectSize;
      var fragmentation := classSize - size;
      GivenHealthy(shape, metrics, peaks, p, index);
      classes[index].Deallocate(p);
      metrics := metrics.(usedBytes := metrics.usedBytes - size,
                          freeBytes := metrics.freeBytes + classSize,
                          internalFragmentation := metrics.internalFragmentation - fragmentation,
                          deallocationCount := metrics.deallocationCount + 1);
      shape := Give(shape, p);
      PeaksStay(shape, metrics, peaks);
    }

    /** Copies a value into a live block of exactly its size. */
    method Store(p: nat, value: Bytes)
      requires Valid() && p in Blocks() && |Blocks()[p]| == |value|
      modifies Repr
      ensures Valid()
      ensures Blocks() == old(Blocks())[p := AsCells(value)] && metrics == old(metrics) && peaks == old(peaks)
      ensures PeaksTrack(old(peaks), peaks, shape)
    {
      hide Healthy, PeaksTrack;
      FilledHealthy(shape, metrics, peaks, p, value);
      heap.cells := Write(heap.cells, p, value);
      shape := Fill(shape, p, value);
      PeaksStay(shape, metrics, peaks);
    }

    /** Reads a live block back. */
    method Load(p: nat, size: nat) returns (value: Bytes)
      requires Valid() && p in Blocks() && |Blocks()[p]| == size
      ensures value == AsBytes(Blocks()[p])
    {
      hide Healthy;
      ReadsBack(shape, metrics, peaks, p);
      value := AsBytes(Contents(heap.cells, p, size));
    }
  }

  /** Nothing is allocated yet. */
  ghost function EmptyShape(backend: Backend): Shape {
    Shape(backend, map[], map[], map[], seq(CLASS_COUNT, _ => NULL), seq(CLASS_COUNT, _ => []), seq(CLASS_COUNT, _ => []))
  }

  lemma EmptyHealthy(backend: Backend, peaks: seq<nat>)
    requires |peaks| == CLASS_COUNT && forall i :: 0 <= i < CLASS_COUNT ==> peaks[i] == 0
    ensures Healthy(EmptyShape(backend), Metrics(0, 0, 0, 0, 0, 0, 0), peaks)
  {
    var x := EmptyShape(backend);
    NoFreeBytes(x.frees, x.slabs, CLASS_COUNT);
    forall i: nat ensures LiveOf(x, i) == {} {
    }
  }

  lemma {:induction false} NoFreeBytes(frees: seq<seq<nat>>, slabs: seq<seq<nat>>, n: nat)
    requires n <= |frees| && n <= |slabs| && forall i :: 0 <= i < n ==> frees[i] == [] && slabs[i] == []
    ensures FreeBytes(frees, n) == 0 && SlabTotal(slabs, n) == 0
  {
    if n != 0 {
      NoFreeBytes(frees, slabs, n - 1);
    }
  }

  /** A block was taken: it is new, it has the requested size, and no other live block changed a byte. */
  ghost predicate Taken(blocks: map<nat, seq<Cell>>, m: Metrics, blocks': map<nat, seq<Cell>>, m': Metrics,
                        p: nat, size: nat) {
    && p != NULL && p !in blocks && p in blocks' && |blocks'[p]| == size
    && blocks' == blocks[p := blocks'[p]]
    && m'.usedBytes == m.usedBytes + size
    && m'.allocationCount == m.allocationCount + 1
    && m'.deallocationCount == m.deallocationCount
  }

  /** A block was returned, and no other live block changed a byte. */
  ghost predicate Given(blocks: map<nat, seq<Cell>>, m: Metrics, blocks': map<nat, seq<Cell>>, m': Metrics, p: nat)
    requires p in blocks
  {
    && blocks' == blocks - {p}
    && m'.usedBytes + |blocks[p]| == m.usedBytes
    && m'.allocationCount == m.allocationCount
    && m'.deallocationCount == m.deallocationCount + 1
  }

  // ---- What a valid allocator guarantees ----

  /** `n / d`, rounded up. */
  function CeilingDiv(n: nat, d: nat): nat {
    if d == 0 then 0 else (n + d - 1) / d
  }

  lemma CeilingIsDivision(slabs: nat, peak: nat, perSlab: nat)
    requires IsCeiling(slabs, peak, perSlab) && 0 < perSlab
    ensures slabs == CeilingDiv(peak, perSlab)
  {
    TimesIsProduct(slabs, perSlab);
    if slabs == 0 {
      QuotientIs(peak + perSlab - 1, perSlab, 0);
    } else {
      TimesIsProduct(slabs - 1, perSlab);
      assert (slabs - 1) * perSlab == slabs * perSlab - perSlab;
      QuotientIs(peak + perSlab - 1, perSlab, slabs);
    }
  }

  /**
   Memory safety and accounting of every reachable allocator.  In each class,
   following the links in memory from the class's head visits the free blocks, each
   once, and ends; free and live blocks partition the carved ones; live blocks are
   aligned and disjoint and hold their contents.  Every byte counter is the sum it
   stands for, reserved bytes are used plus free plus wasted bytes, and a class has
   just as many slabs as its peak required.
   */
  lemma {:induction false} AllocatorGuarantees(a: ValueAllocator, i: nat)
    requires a.Valid() && i < CLASS_COUNT
    ensures |a.classes| == |a.shape.frees| == |a.shape.slabs| == |a.peaks| == CLASS_COUNT
    ensures Chained(a.heap.cells, a.classes[i].freeHead, a.shape.frees[i]) && a.classes[i].slabs == a.shape.slabs[i]
    ensures Faithful(a.Blocks(), a.heap.cells)
    ensures Elements(a.shape.frees[i]) + LiveOf(a.shape, i) == Carved(a.shape.slabs[i], ClassSize(i), PerSlab(i))
    ensures Elements(a.shape.frees[i]) !! LiveOf(a.shape, i) && NoDuplicates(a.shape.frees[i])
    ensures forall p :: p in a.Blocks() ==> p != NULL && Aligned(p)
    ensures forall p, q :: p in a.Blocks() && q in a.Blocks() && p != q ==>
              p + |a.Blocks()[p]| <= q || q + |a.Blocks()[q]| <= p
    ensures a.metrics.allocatedBytes == a.metrics.usedBytes + a.metrics.freeBytes + a.metrics.internalFragmentation
    ensures a.metrics.usedBytes == Sum(Sizes(a.Blocks())) && a.metrics.internalFragmentation == Sum(Slack(a.shape))
    ensures a.metrics.freeBytes == FreeBytes(a.shape.frees, CLASS_COUNT)
    ensures a.metrics.slabCount == SlabTotal(a.shape.slabs, CLASS_COUNT)
    ensures |a.shape.frees[i]| + |LiveOf(a.shape, i)| == Times(|a.shape.slabs[i]|, PerSlab(i))
    ensures |a.shape.slabs[i]| == CeilingDiv(a.peaks[i], PerSlab(i)) && |LiveOf(a.shape, i)| <= a.peaks[i]
  {
    hide Sound, Accounted, PeaksOk, LiveOf, Carved, ClassSize, PerSlab, NoDuplicates, Aligned, Chained, Faithful, Slack, CeilingDiv, Times;
    Partition(a.shape, i);
    LiveBlocksApart(a.shape);
    InMemory(a.shape, i);
    CountsOf(a.shape, a.metrics, a.peaks, i);
  }

  lemma InMemory(x: Shape, i: nat)
    requires Sound(x) && i < CLASS_COUNT
    ensures |x.heads| == |x.frees| == CLASS_COUNT && Chained(x.cells, x.heads[i], x.frees[i]) && Faithful(x.blocks, x.cells)
  {
    hide LayoutOk, ListsOk, Chained, Faithful, Mapped;
  }

  lemma LiveBlocksApart(x: Shape)
    requires Sound(x)
    ensures |x.frees| == |x.slabs| == CLASS_COUNT && forall i :: 0 <= i < CLASS_COUNT ==> NoDuplicates(x.frees[i])
    ensures forall p :: p in x.blocks ==> p != NULL && Aligned(p)
    ensures forall p, q :: p in x.blocks && q in x.blocks && p != q ==>
              p + |x.blocks[p]| <= q || q + |x.blocks[q]| <= p
  {
    hide MemoryOk, Labelled, IsExtentOf;
    assert forall i :: 0 <= i < CLASS_COUNT ==> OnList(x, x.frees[i], i);
  }

  lemma {:induction false} CountsOf(x: Shape, m: Metrics, peaks: seq<nat>, i: nat)
    requires Accounted(x, m) && PeaksOk(x, peaks) && i < CLASS_COUNT
    ensures |peaks| == CLASS_COUNT
    ensures |x.frees| == |x.slabs| == CLASS_COUNT
    ensures m.allocatedBytes == m.usedBytes + m.freeBytes + m.internalFragmentation
    ensures m.usedBytes == Sum(Sizes(x.blocks)) && m.internalFragmentation == Sum(Slack(x))
    ensures m.freeBytes == FreeBytes(x.frees, CLASS_COUNT) && m.slabCount == SlabTotal(x.slabs, CLASS_COUNT)
    ensures |x.frees[i]| + |LiveOf(x, i)| == Times(|x.slabs[i]|, PerSlab(i))
    ensures |x.slabs[i]| == CeilingDiv(peaks[i], PerSlab(i)) && |LiveOf(x, i)| <= peaks[i]
  {
    hide LiveOf, Slack, Sum, Sizes, FreeBytes, SlabTotal, CeilingDiv, Times;
    ClassFacts(i);
    CeilingIsDivision(|x.slabs[i]|, peaks[i], PerSlab(i));
  }
}
