/**
 The slab allocator's data structure as a value: the address space, the blocks
 carved out of it, the free lists threaded through the free blocks, and the
 live blocks with their contents.  `Sound` is the memory-safety invariant, and
 each allocator step is shown to keep it.
 */
module SlabModel {
  import opened Basics
  import opened Memory

  const SLAB_SIZE: nat := 1048576
  const CLASS_COUNT: nat := 8
  const LARGEST_CLASS: nat := 8192

  datatype Backend = System | Slab

  const SIZE_CLASSES: seq<nat> := [64, 128, 256, 512, 1024, 2048, 4096, 8192]

  /** Classes double from 64 bytes; see ClassTable for the values in full. */
  function ClassSize(i: nat): nat {
    if i == 0 then 64 else 2 * ClassSize(i - 1)
  }

  function PerSlab(i: nat): nat {
    if i == 0 then 16384 else PerSlab(i - 1) / 2
  }

  lemma ClassTable()
    ensures forall i :: 0 <= i < CLASS_COUNT ==> ClassSize(i) == SIZE_CLASSES[i]
    ensures [PerSlab(0), PerSlab(1), PerSlab(2), PerSlab(3), PerSlab(4), PerSlab(5), PerSlab(6), PerSlab(7)]
         == [16384, 8192, 4096, 2048, 1024, 512, 256, 128]
  {
    assert ClassSize(1) == 128 && ClassSize(2) == 256 && ClassSize(3) == 512 && ClassSize(4) == 1024;
    assert ClassSize(5) == 2048 && ClassSize(6) == 4096 && ClassSize(7) == 8192;
    assert PerSlab(1) == 8192 && PerSlab(2) == 4096 && PerSlab(3) == 2048 && PerSlab(4) == 1024;
    assert PerSlab(5) == 512 && PerSlab(6) == 256 && PerSlab(7) == 128;
  }

  lemma {:induction false} ClassFacts(i: nat)
    requires i < CLASS_COUNT
    ensures 64 <= ClassSize(i) <= LARGEST_CLASS && ClassSize(i) % 16 == 0 && 1 <= PerSlab(i)
  {
    ClassTable();
  }

  /** Every class divides a slab evenly. */
  lemma {:induction false} ClassProduct(i: nat)
    requires i < CLASS_COUNT
    ensures 0 < ClassSize(i) && PerSlab(i) == SLAB_SIZE / ClassSize(i)
    ensures PerSlab(i) * ClassSize(i) == SLAB_SIZE
  {
    ClassTable();
  }

  /** The smallest class that holds a request. */
  ghost predicate IsClassOf(i: nat, size: nat) {
    && i < CLASS_COUNT
    && size <= ClassSize(i)
    && forall j: nat :: j < i ==> ClassSize(j) < size
  }

  /** A block's room, and the class it was carved for; -1 for a block taken from the heap directly. */
  datatype Extent = Extent(bytes: nat, index: int)

  ghost predicate IsExtentOf(extent: Extent, backend: Backend, size: nat) {
    if backend.System? || LARGEST_CLASS < size then extent == Extent(size, -1)
    else
      && 0 <= extent.index && IsClassOf(extent.index, size)
      && extent.bytes == ClassSize(extent.index)
  }

  datatype Shape = Shape(
    backend: Backend,
    cells: Cells,
    extents: map<nat, Extent>,
    blocks: map<nat, seq<Cell>>,
    heads: seq<nat>,
    frees: seq<seq<nat>>,
    slabs: seq<seq<nat>>)

  /** `n` blocks of `size` bytes, added up one block at a time; TimesIsProduct gives the closed form. */
  function Times(n: nat, size: nat): nat {
    if n == 0 then 0 else Times(n - 1, size) + size
  }

  lemma {:induction false} TimesStep(j: nat, k: nat, size: nat)
    requires j < k
    ensures Times(j, size) + size <= Times(k, size)
  {
    if j != k - 1 {
      TimesStep(j, k - 1, size);
    }
  }

  lemma {:induction false} TimesAligned(n: nat, size: nat)
    requires size % 16 == 0
    ensures Times(n, size) % 16 == 0
  {
    if n != 0 {
      TimesAligned(n - 1, size);
    }
  }

  lemma {:induction false} TimesIsProduct(n: nat, size: nat)
    ensures Times(n, size) == n * size
  {
    if n != 0 {
      TimesIsProduct(n - 1, size);
      assert (n - 1) * size + size == n * size;
    }
  }

  lemma {:induction false} TimesClass(i: nat)
    requires i < CLASS_COUNT
    ensures Times(PerSlab(i), ClassSize(i)) == SLAB_SIZE
  {
    ClassProduct(i);
    TimesIsProduct(PerSlab(i), ClassSize(i));
  }

  // ---- The invariant ----

  /** Blocks are aligned and do not overlap. */
  ghost predicate Spaced(extents: map<nat, Extent>) {
    && (forall p :: p in extents ==> p != NULL && Aligned(p) && 0 < extents[p].bytes)
    && (forall p, q :: p in extents && q in extents && p != q ==>
          p + extents[p].bytes <= q || q + extents[q].bytes <= p)
  }

  ghost predicate Placed(x: Shape) {
    forall p :: p in x.blocks ==>
      p in x.extents && IsExtentOf(x.extents[p], x.backend, |x.blocks[p]|) && 0 < |x.blocks[p]| <= x.extents[p].bytes
  }

  function SlabBlocks(base: nat, size: nat, count: nat): set<nat> {
    set j | 0 <= j < count :: base + Times(j, size)
  }

  /** All blocks carved from a class's slabs. */
  function Carved(slabs: seq<nat>, size: nat, count: nat): set<nat> {
    if slabs == [] then {} else
      Carved(slabs[..|slabs| - 1], size, count) + SlabBlocks(slabs[|slabs| - 1], size, count)
  }

  /** The blocks labelled with class `i` are exactly those in `carved`, and have `size` bytes. */
  ghost predicate Labels(extents: map<nat, Extent>, carved: set<nat>, size: nat, i: nat) {
    && (forall p :: p in extents && extents[p].index == i ==> extents[p].bytes == size)
    && (forall p :: p in carved <==> p in extents && extents[p].index == i)
  }

  ghost predicate Labelled(extents: map<nat, Extent>, slabs: seq<nat>, i: nat) {
    Labels(extents, Carved(slabs, ClassSize(i), PerSlab(i)), ClassSize(i), i)
  }

  ghost predicate LayoutOk(x: Shape) {
    && Spaced(x.extents)
    && Placed(x)
    && |x.slabs| == CLASS_COUNT
    && forall i :: 0 <= i < CLASS_COUNT ==> Labelled(x.extents, x.slabs[i], i)
  }

  ghost predicate OnList(x: Shape, free: seq<nat>, i: nat) {
    && NoDuplicates(free)
    && forall p :: p in free ==> p in x.extents && p !in x.blocks && x.extents[p].index == i
  }

  /** Every block is live or on the free list of its class, and free lists hold nothing else. */
  ghost predicate ListsOk(x: Shape) {
    && |x.frees| == CLASS_COUNT
    && (forall i :: 0 <= i < CLASS_COUNT ==> OnList(x, x.frees[i], i))
    && (forall p :: p in x.extents && p !in x.blocks ==>
          0 <= x.extents[p].index < CLASS_COUNT && p in x.frees[x.extents[p].index])
  }

  ghost predicate Mapped(extents: map<nat, Extent>, cells: Cells) {
    forall p, a :: p in extents && p <= a < p + extents[p].bytes ==> a in cells
  }

  /** A live block reads back as exactly what was put there. */
  ghost predicate Faithful(blocks: map<nat, seq<Cell>>, cells: Cells) {
    forall p, i :: p in blocks && 0 <= i < |blocks[p]| ==> Peek(cells, p + i) == blocks[p][i]
  }

  function First(list: seq<nat>): nat {
    if list == [] then NULL else list[0]
  }

  function Successor(list: seq<nat>, k: nat): nat {
    if k + 1 < |list| then list[k + 1] else NULL
  }

  /** `free` is the list that starts at `head` and follows the links stored in memory. */
  ghost predicate Chained(cells: Cells, head: nat, free: seq<nat>) {
    && head == First(free)
    && forall k :: 0 <= k < |free| ==>
         free[k] != NULL && Peek(cells, free[k]) == Link(Successor(free, k))
  }

  ghost predicate MemoryOk(x: Shape) {
    && |x.heads| == |x.frees| == CLASS_COUNT
    && Mapped(x.extents, x.cells)
    && Faithful(x.blocks, x.cells)
    && forall i :: 0 <= i < CLASS_COUNT ==> Chained(x.cells, x.heads[i], x.frees[i])
  }

  ghost predicate Sound(x: Shape) {
    LayoutOk(x) && ListsOk(x) && MemoryOk(x)
  }

  ghost function LiveOf(x: Shape, i: nat): set<nat> {
    set p | p in x.blocks && p in x.extents && x.extents[p].index == i
  }

  /** Free blocks and live blocks partition the carved blocks of each class. */
  lemma {:induction false} Partition(x: Shape, i: nat)
    requires Sound(x) && i < CLASS_COUNT
    ensures Elements(x.frees[i]) + LiveOf(x, i) == Carved(x.slabs[i], ClassSize(i), PerSlab(i))
    ensures Elements(x.frees[i]) !! LiveOf(x, i)
  {
    assert OnList(x, x.frees[i], i) && Labelled(x.extents, x.slabs[i], i);
  }

  // ---- Framing ----

  lemma ChainFrame(cells: Cells, cells': Cells, head: nat, free: seq<nat>)
    requires Chained(cells, head, free)
    requires forall p :: p in free ==> Peek(cells, p) == Peek(cells', p)
    ensures Chained(cells', head, free)
  {
    forall k | 0 <= k < |free| ensures Peek(cells, free[k]) == Peek(cells', free[k]) {
      assert free[k] in free;
    }
  }

  lemma ChainPush(cells: Cells, p: nat, head: nat, free: seq<nat>)
    requires Chained(cells, head, free) && p != NULL && Peek(cells, p) == Link(head)
    ensures Chained(cells, p, [p] + free)
  {
    var longer := [p] + free;
    forall k | 0 <= k < |longer|
      ensures longer[k] != NULL && Peek(cells, longer[k]) == Link(Successor(longer, k))
    {
      if 0 < k {
        assert longer[k] == free[k - 1] && Successor(longer, k) == Successor(free, k - 1);
      }
    }
  }

  lemma ChainPop(cells: Cells, head: nat, free: seq<nat>)
    requires Chained(cells, head, free) && free != []
    ensures Chained(cells, First(free[1..]), free[1..])
    ensures Peek(cells, head) == Link(First(free[1..]))
  {
    var rest := free[1..];
    assert Successor(free, 0) == First(rest);
    forall k | 0 <= k < |rest| ensures rest[k] != NULL && Peek(cells, rest[k]) == Link(Successor(rest, k)) {
      assert rest[k] == free[k + 1] && Successor(rest, k) == Successor(free, k + 1);
    }
  }

  lemma FaithfulInsert(blocks: map<nat, seq<Cell>>, cells: Cells, p: nat, contents: seq<Cell>)
    requires Faithful(blocks - {p}, cells)
    requires forall i :: 0 <= i < |contents| ==> Peek(cells, p + i) == contents[i]
    ensures Faithful(blocks[p := contents], cells)
  {
    var more, fewer := blocks[p := contents], blocks - {p};
    forall q, i | q in more && 0 <= i < |more[q]| ensures Peek(cells, q + i) == more[q][i] {
      assert q != p ==> q in fewer && fewer[q] == more[q];
    }
  }

  /** Writing inside one block disturbs no other block and, unless the block is free, no free list. */
  lemma WriteFrame(x: Shape, cells: Cells, p: nat)
    requires Sound(x) && p in x.blocks && SameOutside(x.cells, cells, p, x.extents[p].bytes)
    ensures forall i :: 0 <= i < CLASS_COUNT ==> Chained(cells, x.heads[i], x.frees[i])
    ensures Faithful(x.blocks - {p}, cells)
    ensures Mapped(x.extents - {p}, cells)
  {
    hide Chained, Labelled, NoDuplicates, IsExtentOf;
    forall i | 0 <= i < CLASS_COUNT ensures Chained(cells, x.heads[i], x.frees[i]) {
      assert OnList(x, x.frees[i], i);
      ChainFrame(x.cells, cells, x.heads[i], x.frees[i]);
    }
    forall q, k | q in x.blocks - {p} && 0 <= k < |x.blocks[q]| ensures Peek(cells, q + k) == x.blocks[q][k] {
      assert Peek(x.cells, q + k) == x.blocks[q][k];
    }
  }

  /** Adding fresh memory disturbs nothing. */
  lemma ExtendFrame(x: Shape, cells: Cells)
    requires Sound(x) && Extends(x.cells, cells)
    ensures forall i :: 0 <= i < CLASS_COUNT ==> Chained(cells, x.heads[i], x.frees[i])
    ensures Faithful(x.blocks, cells)
    ensures Mapped(x.extents, cells)
  {
    forall i | 0 <= i < CLASS_COUNT ensures Chained(cells, x.heads[i], x.frees[i]) {
      assert OnList(x, x.frees[i], i);
      ChainFrame(x.cells, cells, x.heads[i], x.frees[i]);
    }
    forall q, k | q in x.blocks && 0 <= k < |x.blocks[q]| ensures Peek(cells, q + k) == x.blocks[q][k] {
      assert Peek(x.cells, q + k) == x.blocks[q][k];
      assert q + k in x.cells;
    }
  }

  // ---- Steps ----

  /** Pops the head of a free list and makes it a live block of `size` bytes. */
  ghost function Take(x: Shape, i: nat, size: nat): Shape
    requires |x.heads| == |x.frees| == CLASS_COUNT && i < CLASS_COUNT && x.frees[i] != []
  {
    var p := x.frees[i][0];
    var rest := x.frees[i][1..];
    x.(blocks := x.blocks[p := Contents(x.cells, p, size)],
       heads := x.heads[i := First(rest)],
       frees := x.frees[i := rest])
  }

  lemma TakeLists(x: Shape, i: nat, size: nat)
    requires ListsOk(x) && |x.heads| == CLASS_COUNT && i < CLASS_COUNT && x.frees[i] != []
    ensures ListsOk(Take(x, i, size))
  {
    var y := Take(x, i, size);
    var p := x.frees[i][0];
    assert x.frees[i] == [p] + y.frees[i];
    forall j | 0 <= j < CLASS_COUNT ensures OnList(y, y.frees[j], j) {
      assert OnList(x, x.frees[j], j) && OnList(x, x.frees[i], i);
      assert p in x.frees[i];
    }
  }

  lemma TakeMemory(x: Shape, i: nat, size: nat)
    requires MemoryOk(x) && i < CLASS_COUNT && x.frees[i] != []
    ensures MemoryOk(Take(x, i, size))
  {
    var p := x.frees[i][0];
    ChainPop(x.cells, x.heads[i], x.frees[i]);
    FaithfulInsert(x.blocks, x.cells, p, Contents(x.cells, p, size));
  }

  lemma TakeLayout(x: Shape, i: nat, size: nat)
    requires LayoutOk(x) && ListsOk(x) && |x.heads| == CLASS_COUNT && i < CLASS_COUNT && x.frees[i] != []
    requires x.backend.Slab? && 0 < size <= LARGEST_CLASS && IsClassOf(i, size)
    ensures LayoutOk(Take(x, i, size))
  {
    assert OnList(x, x.frees[i], i) && Labelled(x.extents, x.slabs[i], i) && x.frees[i][0] in x.frees[i];
  }

  lemma TakeSound(x: Shape, i: nat, size: nat)
    requires Sound(x) && i < CLASS_COUNT && x.frees[i] != []
    requires x.backend.Slab? && 0 < size <= LARGEST_CLASS && IsClassOf(i, size)
    ensures Sound(Take(x, i, size))
  {
    TakeLayout(x, i, size);
    TakeLists(x, i, size);
    TakeMemory(x, i, size);
  }

  /** Turns a live slab block back into a free-list node at the head of its class. */
  ghost function Give(x: Shape, p: nat): Shape
    requires |x.heads| == |x.frees| == CLASS_COUNT && p in x.extents && 0 <= x.extents[p].index < CLASS_COUNT
  {
    var i := x.extents[p].index;
    x.(cells := PlaceNode(x.cells, p, x.heads[i]),
       blocks := x.blocks - {p},
       heads := x.heads[i := p],
       frees := x.frees[i := [p] + x.frees[i]])
  }

  lemma GiveLists(x: Shape, p: nat)
    requires ListsOk(x) && |x.heads| == CLASS_COUNT
    requires p in x.extents && p in x.blocks && 0 <= x.extents[p].index < CLASS_COUNT
    ensures ListsOk(Give(x, p))
  {
    var i, y := x.extents[p].index, Give(x, p);
    forall j | 0 <= j < CLASS_COUNT ensures OnList(y, y.frees[j], j) {
      assert OnList(x, x.frees[j], j);
    }
  }

  lemma GiveMemory(x: Shape, p: nat)
    requires Sound(x) && p in x.blocks && 0 <= x.extents[p].index < CLASS_COUNT
    ensures MemoryOk(Give(x, p))
  {
    var i, y := x.extents[p].index, Give(x, p);
    assert Labelled(x.extents, x.slabs[i], i);
    ClassFacts(i);
    PlaceNodeOutside(x.cells, p, x.heads[i], x.extents[p].bytes);
    WriteFrame(x, y.cells, p);
    ChainPush(y.cells, p, x.heads[i], x.frees[i]);
  }

  lemma GiveSound(x: Shape, p: nat)
    requires Sound(x) && p in x.blocks && 0 <= x.extents[p].index < CLASS_COUNT
    ensures Sound(Give(x, p))
  {
    GiveLists(x, p);
    GiveMemory(x, p);
    assert LayoutOk(Give(x, p));
  }

  /** Carving order of a fresh slab: the block pushed last stands first. */
  function CarvedList(base: nat, size: nat, count: nat): seq<nat> {
    seq(count, k requires 0 <= k < count => base + Times(count - 1 - k, size))
  }

  /** A new slab for a class whose free list is empty, already carved into nodes. */
  ghost function Grow(x: Shape, i: nat, base: nat, cells: Cells): Shape
    requires |x.heads| == |x.frees| == |x.slabs| == CLASS_COUNT && i < CLASS_COUNT
  {
    var list := CarvedList(base, ClassSize(i), PerSlab(i));
    x.(cells := cells,
       extents := WithBlocks(x.extents, SlabBlocks(base, ClassSize(i), PerSlab(i)), ClassSize(i), i),
       heads := x.heads[i := First(list)],
       frees := x.frees[i := list],
       slabs := x.slabs[i := x.slabs[i] + [base]])
  }

  /** Blocks of one slab lie inside it and are aligned. */
  lemma {:induction false} SlabBlockInside(base: nat, i: nat, p: nat)
    requires i < CLASS_COUNT && Aligned(base)
    requires p in SlabBlocks(base, ClassSize(i), PerSlab(i))
    ensures base <= p && p + ClassSize(i) <= base + SLAB_SIZE && Aligned(p)
  {
    hide ClassSize, PerSlab, Times;
    ClassFacts(i);
    var j :| 0 <= j < PerSlab(i) && p == base + Times(j, ClassSize(i));
    TimesStep(j, PerSlab(i), ClassSize(i));
    TimesClass(i);
    assert Aligned(p) by {
      TimesAligned(j, ClassSize(i));
    }
  }

  lemma SlabBlocksApart(base: nat, size: nat, count: nat, p: nat, q: nat)
    requires p in SlabBlocks(base, size, count) && q in SlabBlocks(base, size, count) && p != q
    ensures p + size <= q || q + size <= p
  {
    var j :| 0 <= j < count && p == base + Times(j, size);
    var k :| 0 <= k < count && q == base + Times(k, size);
    if j < k {
      TimesStep(j, k, size);
    } else {
      TimesStep(k, j, size);
    }
  }

  lemma CarvedListMembers(base: nat, size: nat, count: nat)
    requires 0 < size
    ensures NoDuplicates(CarvedList(base, size, count))
    ensures forall p :: p in CarvedList(base, size, count) <==> p in SlabBlocks(base, size, count)
  {
    var list := CarvedList(base, size, count);
    forall a, b | 0 <= a < b < |list| ensures list[a] != list[b] {
      TimesStep(count - 1 - b, count - 1 - a, size);
    }
    forall p | p in SlabBlocks(base, size, count) ensures p in list {
      var j :| 0 <= j < count && p == base + Times(j, size);
      assert list[count - 1 - j] == p;
    }
  }

  /** A region outside mapped memory lies clear of every existing block. */
  lemma FreshIsClear(x: Shape, p: nat, size: nat, q: nat)
    requires Spaced(x.extents) && Mapped(x.extents, x.cells) && 0 < size
    requires Unmapped(x.cells, p, size) && q in x.extents
    ensures p + size <= q || q + x.extents[q].bytes <= p
  {
    assert q <= p < q + x.extents[q].bytes ==> p in x.cells;
    assert q in x.cells;
  }

  ghost predicate Inside(added: set<nat>, base: nat, size: nat) {
    forall p :: p in added ==> base <= p && p + size <= base + SLAB_SIZE && Aligned(p)
  }

  ghost predicate Apart(added: set<nat>, size: nat) {
    forall p, q :: p in added && q in added && p != q ==> p + size <= q || q + size <= p
  }

  lemma {:induction false} SlabBlocksPlaced(base: nat, i: nat)
    requires i < CLASS_COUNT && Aligned(base)
    ensures Inside(SlabBlocks(base, ClassSize(i), PerSlab(i)), base, ClassSize(i))
    ensures Apart(SlabBlocks(base, ClassSize(i), PerSlab(i)), ClassSize(i))
  {
    var size, added := ClassSize(i), SlabBlocks(base, ClassSize(i), PerSlab(i));
    forall p | p in added ensures base <= p && p + size <= base + SLAB_SIZE && Aligned(p) {
      SlabBlockInside(base, i, p);
    }
    forall p, q | p in added && q in added && p != q ensures p + size <= q || q + size <= p {
      SlabBlocksApart(base, size, PerSlab(i), p, q);
    }
  }

  lemma SpacedMore(extents: map<nat, Extent>, added: set<nat>, base: nat, size: nat, i: nat)
    requires Spaced(extents) && Inside(added, base, size) && Apart(added, size) && 0 < size && base != NULL
    requires forall q :: q in extents ==> base + SLAB_SIZE <= q || q + extents[q].bytes <= base
    ensures Spaced(WithBlocks(extents, added, size, i)) && added !! extents.Keys
  {
  }

  lemma {:induction false} GrowSpaced(x: Shape, i: nat, base: nat, cells: Cells)
    requires Sound(x) && i < CLASS_COUNT
    requires base != NULL && Aligned(base) && Unmapped(x.cells, base, SLAB_SIZE)
    ensures Spaced(Grow(x, i, base, cells).extents)
    ensures forall p :: p in SlabBlocks(base, ClassSize(i), PerSlab(i)) ==> p !in x.extents
    ensures Inside(SlabBlocks(base, ClassSize(i), PerSlab(i)), base, ClassSize(i))
  {
    hide ListsOk, Faithful, Chained, Placed, Labelled;
    ClassFacts(i);
    SlabBlocksPlaced(base, i);
    forall q | q in x.extents ensures base + SLAB_SIZE <= q || q + x.extents[q].bytes <= base {
      FreshIsClear(x, base, SLAB_SIZE, q);
    }
    SpacedMore(x.extents, SlabBlocks(base, ClassSize(i), PerSlab(i)), base, ClassSize(i), i);
  }

  lemma {:induction false} CarvedMore(slabs: seq<nat>, base: nat, size: nat, count: nat)
    ensures Carved(slabs + [base], size, count) == Carved(slabs, size, count) + SlabBlocks(base, size, count)
  {
    assert (slabs + [base])[..|slabs|] == slabs;
  }

  function WithBlocks(extents: map<nat, Extent>, added: set<nat>, size: nat, i: nat): map<nat, Extent> {
    extents + map p | p in added :: Extent(size, i)
  }

  lemma LabelsMore(extents: map<nat, Extent>, carved: set<nat>, added: set<nat>, size: nat, size': nat,
                   i: nat, j: nat)
    requires Labels(extents, carved, size', j) && added !! extents.Keys && (i == j ==> size == size')
    ensures Labels(WithBlocks(extents, added, size, i), if i == j then carved + added else carved, size', j)
  {
  }

  lemma {:induction false} LabelledMore(extents: map<nat, Extent>, slabs: seq<nat>, i: nat, base: nat, j: nat)
    requires Labelled(extents, slabs, j)
    requires SlabBlocks(base, ClassSize(i), PerSlab(i)) !! extents.Keys
    ensures Labelled(WithBlocks(extents, SlabBlocks(base, ClassSize(i), PerSlab(i)), ClassSize(i), i),
                     if i == j then slabs + [base] else slabs, j)
  {
    LabelsMore(extents, Carved(slabs, ClassSize(j), PerSlab(j)), SlabBlocks(base, ClassSize(i), PerSlab(i)),
               ClassSize(i), ClassSize(j), i, j);
    CarvedMore(slabs, base, ClassSize(j), PerSlab(j));
  }

  lemma {:induction false} GrowLayout(x: Shape, i: nat, base: nat, cells: Cells)
    requires LayoutOk(x) && |x.heads| == |x.frees| == CLASS_COUNT && i < CLASS_COUNT
    requires Spaced(Grow(x, i, base, cells).extents)
    requires forall p :: p in SlabBlocks(base, ClassSize(i), PerSlab(i)) ==> p !in x.extents
    ensures LayoutOk(Grow(x, i, base, cells))
  {
    var y := Grow(x, i, base, cells);
    forall j | 0 <= j < CLASS_COUNT ensures Labelled(y.extents, y.slabs[j], j) {
      LabelledMore(x.extents, x.slabs[j], i, base, j);
    }
  }

  lemma {:induction false} GrowMemory(x: Shape, i: nat, base: nat, cells: Cells)
    requires Sound(x) && i < CLASS_COUNT
    requires Extends(x.cells, cells) && forall a :: base <= a < base + SLAB_SIZE ==> a in cells
    requires forall p :: p in SlabBlocks(base, ClassSize(i), PerSlab(i)) ==> p !in x.extents
    requires Inside(SlabBlocks(base, ClassSize(i), PerSlab(i)), base, ClassSize(i))
    requires Chained(cells, First(CarvedList(base, ClassSize(i), PerSlab(i))), CarvedList(base, ClassSize(i), PerSlab(i)))
    ensures MemoryOk(Grow(x, i, base, cells))
  {
    ExtendFrame(x, cells);
  }

  lemma {:induction false} GrowLists(x: Shape, i: nat, base: nat, cells: Cells)
    requires ListsOk(x) && |x.heads| == |x.slabs| == CLASS_COUNT && i < CLASS_COUNT && x.frees[i] == []
    requires forall p :: p in SlabBlocks(base, ClassSize(i), PerSlab(i)) ==> p !in x.extents && p !in x.blocks
    ensures ListsOk(Grow(x, i, base, cells))
  {
    var y := Grow(x, i, base, cells);
    ClassFacts(i);
    CarvedListMembers(base, ClassSize(i), PerSlab(i));
    forall j | 0 <= j < CLASS_COUNT ensures OnList(y, y.frees[j], j) {
      assert OnList(x, x.frees[j], j);
    }
  }

  lemma {:induction false} GrowSound(x: Shape, i: nat, base: nat, cells: Cells)
    requires Sound(x) && i < CLASS_COUNT && x.frees[i] == []
    requires base != NULL && Aligned(base) && Unmapped(x.cells, base, SLAB_SIZE)
    requires Extends(x.cells, cells) && forall a :: base <= a < base + SLAB_SIZE ==> a in cells
    requires Chained(cells, First(CarvedList(base, ClassSize(i), PerSlab(i))), CarvedList(base, ClassSize(i), PerSlab(i)))
    ensures Sound(Grow(x, i, base, cells))
  {
    GrowSpaced(x, i, base, cells);
    GrowLayout(x, i, base, cells);
    GrowLists(x, i, base, cells);
    GrowMemory(x, i, base, cells);
  }

  /** A block taken straight from the heap. */
  ghost function TakeDirect(x: Shape, p: nat, size: nat): Shape {
    var cells := Reserve(x.cells, p, size);
    x.(cells := cells,
       extents := x.extents[p := Extent(size, -1)],
       blocks := x.blocks[p := Contents(cells, p, size)])
  }

  lemma LabelledDirect(extents: map<nat, Extent>, slabs: seq<nat>, p: nat, size: nat, j: nat)
    requires Labelled(extents, slabs, j) && p !in extents
    ensures Labelled(extents[p := Extent(size, -1)], slabs, j)
  {
  }

  lemma SpacedDirect(extents: map<nat, Extent>, p: nat, size: nat)
    requires Spaced(extents) && p !in extents && p != NULL && Aligned(p) && 0 < size
    requires forall q :: q in extents ==> p + size <= q || q + extents[q].bytes <= p
    ensures Spaced(extents[p := Extent(size, -1)])
  {
    hide Aligned;
  }

  lemma PlacedDirect(x: Shape, p: nat, size: nat)
    requires Placed(x) && p !in x.extents && 0 < size && (x.backend.System? || LARGEST_CLASS < size)
    ensures Placed(TakeDirect(x, p, size))
  {
    hide IsClassOf, ClassSize;
  }

  lemma TakeDirectLayout(x: Shape, p: nat, size: nat)
    requires LayoutOk(x) && p !in x.extents && p != NULL && Aligned(p)
    requires 0 < size && (x.backend.System? || LARGEST_CLASS < size)
    requires forall q :: q in x.extents ==> p + size <= q || q + x.extents[q].bytes <= p
    ensures LayoutOk(TakeDirect(x, p, size))
  {
    SpacedDirect(x.extents, p, size);
    PlacedDirect(x, p, size);
    hide ClassSize, PerSlab, Carved, Labels, IsClassOf, Aligned, Spaced, Placed;
    forall j | 0 <= j < CLASS_COUNT ensures Labelled(x.extents[p := Extent(size, -1)], x.slabs[j], j) {
      LabelledDirect(x.extents, x.slabs[j], p, size, j);
    }
  }

  lemma TakeDirectLists(x: Shape, p: nat, size: nat)
    requires ListsOk(x) && p !in x.extents
    ensures ListsOk(TakeDirect(x, p, size))
  {
    var y := TakeDirect(x, p, size);
    forall j | 0 <= j < CLASS_COUNT ensures OnList(y, y.frees[j], j) {
      assert OnList(x, x.frees[j], j);
    }
  }

  lemma InsertDirect(x: Shape, y: Shape, p: nat, size: nat)
    requires y == TakeDirect(x, p, size) && p !in x.blocks && |x.heads| == |x.frees| == CLASS_COUNT
    requires forall i :: 0 <= i < CLASS_COUNT ==> Chained(y.cells, x.heads[i], x.frees[i])
    requires Faithful(x.blocks, y.cells) && Mapped(x.extents, y.cells)
    requires forall a :: p <= a < p + size ==> a in y.cells
    ensures MemoryOk(y)
  {
    assert x.blocks - {p} == x.blocks;
    FaithfulInsert(x.blocks, y.cells, p, Contents(y.cells, p, size));
  }

  lemma TakeDirectMemory(x: Shape, p: nat, size: nat)
    requires Sound(x) && Unmapped(x.cells, p, size) && p !in x.blocks
    ensures MemoryOk(TakeDirect(x, p, size))
  {
    ReserveExtends(x.cells, p, size);
    ExtendFrame(x, Reserve(x.cells, p, size));
    InsertDirect(x, TakeDirect(x, p, size), p, size);
  }

  lemma TakeDirectSound(x: Shape, p: nat, size: nat)
    requires Sound(x) && 0 < size && (x.backend.System? || LARGEST_CLASS < size)
    requires p != NULL && Aligned(p) && Unmapped(x.cells, p, size)
    ensures Sound(TakeDirect(x, p, size)) && p !in x.extents && p !in x.blocks
  {
    forall q | q in x.extents ensures p + size <= q || q + x.extents[q].bytes <= p {
      FreshIsClear(x, p, size, q);
    }
    assert p !in x.extents;
    TakeDirectLayout(x, p, size);
    TakeDirectLists(x, p, size);
    TakeDirectMemory(x, p, size);
  }

  ghost function GiveDirect(x: Shape, p: nat): Shape
    requires p in x.extents
  {
    x.(cells := Release(x.cells, p, x.extents[p].bytes), extents := x.extents - {p}, blocks := x.blocks - {p})
  }

  lemma LabelsLess(extents: map<nat, Extent>, carved: set<nat>, size: nat, p: nat, j: nat)
    requires Labels(extents, carved, size, j) && p in extents && extents[p].index == -1
    ensures Labels(extents - {p}, carved, size, j)
  {
  }

  lemma GiveDirectLayout(x: Shape, p: nat)
    requires LayoutOk(x) && p in x.blocks && x.extents[p].index == -1
    ensures LayoutOk(GiveDirect(x, p))
  {
    forall j | 0 <= j < CLASS_COUNT ensures Labelled(x.extents - {p}, x.slabs[j], j) {
      LabelsLess(x.extents, Carved(x.slabs[j], ClassSize(j), PerSlab(j)), ClassSize(j), p, j);
    }
  }

  lemma GiveDirectLists(x: Shape, p: nat)
    requires ListsOk(x) && p in x.blocks && p in x.extents && x.extents[p].index == -1
    ensures ListsOk(GiveDirect(x, p))
  {
    var y := GiveDirect(x, p);
    forall j | 0 <= j < CLASS_COUNT ensures OnList(y, y.frees[j], j) {
      assert OnList(x, x.frees[j], j);
    }
  }

  lemma GiveDirectMemory(x: Shape, p: nat)
    requires Sound(x) && p in x.blocks && x.extents[p].index == -1
    ensures MemoryOk(GiveDirect(x, p))
  {
    assert p in x.extents;
    hide LayoutOk, ListsOk;
    ReleaseOutside(x.cells, p, x.extents[p].bytes);
    WriteFrame(x, GiveDirect(x, p).cells, p);
  }

  lemma GiveDirectSound(x: Shape, p: nat)
    requires Sound(x) && p in x.blocks && x.extents[p].index == -1
    ensures Sound(GiveDirect(x, p))
  {
    GiveDirectLayout(x, p);
    GiveDirectLists(x, p);
    GiveDirectMemory(x, p);
  }

  /** Copying a value into a live block. */
  ghost function Fill(x: Shape, p: nat, value: Bytes): Shape {
    x.(cells := Write(x.cells, p, value), blocks := x.blocks[p := AsCells(value)])
  }

  lemma FillSound(x: Shape, p: nat, value: Bytes)
    requires Sound(x) && p in x.blocks && |x.blocks[p]| == |value|
    ensures Sound(Fill(x, p, value))
  {
    var y := Fill(x, p, value);
    FillLists(x, p, value);
    assert LayoutOk(y);
    FillMemory(x, p, value);
  }

  lemma FillLists(x: Shape, p: nat, value: Bytes)
    requires ListsOk(x) && p in x.blocks
    ensures ListsOk(Fill(x, p, value))
  {
    var y := Fill(x, p, value);
    forall j | 0 <= j < CLASS_COUNT ensures OnList(y, y.frees[j], j) {
      assert OnList(x, x.frees[j], j);
    }
  }

  lemma FillMemory(x: Shape, p: nat, value: Bytes)
    requires Sound(x) && p in x.blocks && |x.blocks[p]| == |value|
    ensures MemoryOk(Fill(x, p, value))
  {
    var cells := Write(x.cells, p, value);
    WriteOutside(x.cells, p, value, x.extents[p].bytes);
    WriteFrame(x, cells, p);
    FaithfulInsert(x.blocks, cells, p, AsCells(value));
  }
}
