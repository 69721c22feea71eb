/**
 The allocator over whole runs, seen from its clients: values are put into blocks
 and blocks are given back, in any order, with either backend.  What is held, how
 much is in use and how many slabs there are follow from the history alone.
 */
module AllocatorRuns {
  import opened Basics
  import opened Memory
  import opened SlabModel
  import opened SlabAccounting
  import opened ValueAllocators

  /** `Drop(handle)` gives back the block of the value that command number `handle` put there, if it is still held. */
  datatype BlockCommand = Put(value: Bytes) | Drop(handle: nat)

  /** The values held after a script, by the number of the command that put them. */
  function Held(script: seq<BlockCommand>): map<nat, Bytes> {
    if script == [] then map[] else
      var n := |script| - 1;
      match script[n]
      case Put(value) => Held(script[..n])[n := value]
      case Drop(handle) => Held(script[..n]) - {handle}
  }

  /** The held values that take a block of class `i`. */
  ghost function InClass(held: map<nat, Bytes>, backend: Backend, i: nat): set<nat> {
    set h | h in held && backend.Slab? && 0 < |held[h]| <= LARGEST_CLASS && IsClassOf(i, |held[h]|)
  }

  /** The most values of class `i` that were ever held at once. */
  ghost function Peak(script: seq<BlockCommand>, backend: Backend, i: nat): nat {
    if script == [] then 0 else
      Max(Peak(script[..|script| - 1], backend, i), |InClass(Held(script), backend, i)|)
  }

  lemma {:induction false} HeldBound(script: seq<BlockCommand>)
    ensures forall h :: h in Held(script) ==> h < |script|
  {
    if script != [] {
      HeldBound(script[..|script| - 1]);
    }
  }

  // ---- Handles and blocks correspond ----

  /**
   Every held value has its own block of exactly its size, and every live block is
   some held value's; `tenant` is the inverse of `places`.  An empty value has the
   null block.
   */
  ghost predicate Housed(held: map<nat, Bytes>, places: map<nat, nat>, tenant: map<nat, nat>, blocks: map<nat, seq<Cell>>) {
    && places.Keys == held.Keys
    && tenant.Keys == blocks.Keys
    && NULL !in blocks
    && (forall h :: h in held ==>
          if held[h] == [] then places[h] == NULL
          else places[h] in blocks && tenant[places[h]] == h && |blocks[places[h]]| == |held[h]|)
    && (forall p :: p in tenant ==> tenant[p] in held && held[tenant[p]] != [] && places[tenant[p]] == p)
  }

  /** And the block holds the value. */
  ghost predicate Stored(held: map<nat, Bytes>, places: map<nat, nat>, blocks: map<nat, seq<Cell>>) {
    forall h :: h in held && held[h] != [] && h in places ==>
      places[h] in blocks && blocks[places[h]] == AsCells(held[h])
  }

  lemma PutHoused(held: map<nat, Bytes>, places: map<nat, nat>, tenant: map<nat, nat>,
                  blocks: map<nat, seq<Cell>>, n: nat, value: Bytes, p: nat, contents: seq<Cell>)
    requires Housed(held, places, tenant, blocks) && n !in held && value != [] && |contents| == |value|
    requires p != NULL && p !in blocks
    ensures Housed(held[n := value], places[n := p], tenant[p := n], blocks[p := contents])
  {
  }

  lemma PutNothing(held: map<nat, Bytes>, places: map<nat, nat>, tenant: map<nat, nat>,
                   blocks: map<nat, seq<Cell>>, n: nat)
    requires Housed(held, places, tenant, blocks) && n !in held
    ensures Housed(held[n := []], places[n := NULL], tenant, blocks)
  {
  }

  lemma DropHoused(held: map<nat, Bytes>, places: map<nat, nat>, tenant: map<nat, nat>,
                   blocks: map<nat, seq<Cell>>, h: nat)
    requires Housed(held, places, tenant, blocks) && h in held
    ensures h in places
    ensures Housed(held - {h}, places - {h}, tenant - {places[h]}, blocks - {places[h]})
    ensures Stored(held, places, blocks) ==> Stored(held - {h}, places - {h}, blocks - {places[h]})
  {
  }

  lemma PutStored(held: map<nat, Bytes>, places: map<nat, nat>, tenant: map<nat, nat>,
                  blocks: map<nat, seq<Cell>>, n: nat, value: Bytes, p: nat)
    requires Housed(held, places, tenant, blocks) && Stored(held, places, blocks) && n !in held
    requires p != NULL && p !in blocks
    ensures Stored(held[n := value], places[n := p], blocks[p := AsCells(value)])
  {
  }

  // ---- Counting through the correspondence ----

  lemma {:induction false} ImageSize(s: set<nat>, f: map<nat, nat>)
    requires forall h :: h in s ==> h in f
    requires forall h, k :: h in s && k in s && h != k ==> f[h] != f[k]
    ensures |set h | h in s :: f[h]| == |s|
  {
    if s != {} {
      var h :| h in s;
      var rest := s - {h};
      ImageSize(rest, f);
      assert (set k | k in s :: f[k]) == (set k | k in rest :: f[k]) + {f[h]};
    }
  }

  /** The live blocks of a class are the blocks of the held values of that class. */
  lemma LiveCount(x: Shape, held: map<nat, Bytes>, places: map<nat, nat>, tenant: map<nat, nat>, i: nat)
    requires Sound(x) && Housed(held, places, tenant, x.blocks)
    ensures |LiveOf(x, i)| == |InClass(held, x.backend, i)|
  {
    var mine := InClass(held, x.backend, i);
    ImageSize(mine, places);
    assert LiveOf(x, i) == set h | h in mine :: places[h] by {
      LiveImage(x, held, places, tenant, i);
    }
  }

  lemma LiveImage(x: Shape, held: map<nat, Bytes>, places: map<nat, nat>, tenant: map<nat, nat>, i: nat)
    requires Sound(x) && Housed(held, places, tenant, x.blocks)
    ensures forall h :: h in InClass(held, x.backend, i) ==> h in places
    ensures LiveOf(x, i) == set h | h in InClass(held, x.backend, i) :: places[h]
  {
    forall p | p in x.blocks
      ensures p in x.extents
      ensures x.extents[p].index == i
         <==> x.backend.Slab? && |x.blocks[p]| <= LARGEST_CLASS && IsClassOf(i, |x.blocks[p]|)
      ensures 0 < |x.blocks[p]|
    {
      PlacedClass(x, p, i);
    }
    hide Sound, IsClassOf;
    forall p | p in LiveOf(x, i) ensures p in set h | h in InClass(held, x.backend, i) :: places[h] {
      assert tenant[p] in InClass(held, x.backend, i) && places[tenant[p]] == p;
    }
  }

  lemma PlacedClass(x: Shape, p: nat, i: nat)
    requires Sound(x) && p in x.blocks
    ensures p in x.extents && 0 < |x.blocks[p]|
    ensures x.extents[p].index == i <==> x.backend.Slab? && |x.blocks[p]| <= LARGEST_CLASS && IsClassOf(i, |x.blocks[p]|)
  {
    hide ListsOk, MemoryOk, Spaced, Labelled, IsClassOf, ClassSize;
    if x.backend.Slab? && |x.blocks[p]| <= LARGEST_CLASS && IsClassOf(i, |x.blocks[p]|) {
      ClassIsUnique(i, x.extents[p].index, |x.blocks[p]|);
    }
  }

  /** Sums over blocks are sums over the values that live in them. */
  lemma {:induction false} ImageSum(m: map<nat, nat>, m': map<nat, nat>, f: map<nat, nat>)
    requires forall h :: h in m ==> h in f && f[h] in m' && m'[f[h]] == m[h]
    requires forall h, k :: h in m && k in m && h != k ==> f[h] != f[k]
    requires forall p :: p in m' ==> exists h :: h in m && f[h] == p
    ensures Sum(m) == Sum(m')
    decreases m
  {
    if m == map[] {
      assert m' == map[];
    } else {
      var h :| h in m;
      var rest, rest' := m - {h}, m' - {f[h]};
      forall p | p in rest' ensures exists k :: k in rest && f[k] == p {
        var k :| k in m && f[k] == p;
        assert k in rest;
      }
      ImageSum(rest, rest', f);
      SumRemove(m, h);
      SumRemove(m', f[h]);
    }
  }

  /** The sizes of the held values that have a block. */
  ghost function HeldSizes(held: map<nat, Bytes>): map<nat, nat> {
    map h | h in held && held[h] != [] :: |held[h]|
  }

  lemma UsedIsHeld(held: map<nat, Bytes>, places: map<nat, nat>, tenant: map<nat, nat>,
                   blocks: map<nat, seq<Cell>>)
    requires Housed(held, places, tenant, blocks)
    ensures Sum(Sizes(blocks)) == Sum(HeldSizes(held))
  {
    forall p | p in Sizes(blocks) ensures exists h :: h in HeldSizes(held) && places[h] == p {
      assert tenant[p] in HeldSizes(held);
    }
    ImageSum(HeldSizes(held), Sizes(blocks), places);
  }

  /** The room a value of `size` bytes takes: the first class from `i` on that holds it, or just its size. */
  function RoomFrom(size: nat, i: nat): nat
    decreases CLASS_COUNT - i
  {
    if CLASS_COUNT <= i then size else if size <= ClassSize(i) then ClassSize(i) else RoomFrom(size, i + 1)
  }

  function Room(backend: Backend, size: nat): nat {
    if backend.System? || LARGEST_CLASS < size then size else RoomFrom(size, 0)
  }

  /** The eight classes in numbers: the slab allocator rounds up to one of them, the system allocator never does. */
  lemma RoomTable(size: nat)
    ensures Room(System, size) == size
    ensures Room(Slab, size)
         == if size <= 64 then 64 else if size <= 128 then 128 else if size <= 256 then 256 else if size <= 512 then 512
            else if size <= 1024 then 1024 else if size <= 2048 then 2048 else if size <= 4096 then 4096
            else if size <= 8192 then 8192 else size
  {
    ClassTable();
    hide ClassSize;
    forall i | 0 <= i < CLASS_COUNT ensures RoomFrom(size, i) == if size <= SIZE_CLASSES[i] then SIZE_CLASSES[i] else RoomFrom(size, i + 1) {
      assert ClassSize(i) == SIZE_CLASSES[i];
    }
    assert SIZE_CLASSES == [64, 128, 256, 512, 1024, 2048, 4096, 8192];
  }

  lemma {:induction false} RoomOfClass(size: nat, i: nat, c: nat)
    requires IsClassOf(c, size) && i <= c
    ensures RoomFrom(size, i) == ClassSize(c)
    decreases c - i
  {
    if i < c {
      assert ClassSize(i) < size;
      RoomOfClass(size, i + 1, c);
    }
  }

  lemma ExtentIsRoom(extent: Extent, backend: Backend, size: nat)
    requires IsExtentOf(extent, backend, size)
    ensures extent.bytes == Room(backend, size)
  {
    hide IsClassOf, ClassSize;
    if backend.Slab? && size <= LARGEST_CLASS {
      RoomOfClass(size, 0, extent.index);
    }
  }

  /** The bytes each held value wastes in its block. */
  ghost function HeldWaste(held: map<nat, Bytes>, backend: Backend): map<nat, nat> {
    map h | h in held && held[h] != [] && |held[h]| <= Room(backend, |held[h]|) :: Room(backend, |held[h]|) - |held[h]|
  }

  lemma WasteIsHeld(x: Shape, held: map<nat, Bytes>, places: map<nat, nat>, tenant: map<nat, nat>)
    requires Sound(x) && Housed(held, places, tenant, x.blocks)
    ensures Sum(Slack(x)) == Sum(HeldWaste(held, x.backend))
  {
    hide Housed, Room, HeldWaste, Sound;
    forall p | p in x.blocks
      ensures p in x.extents && x.extents[p].bytes == Room(x.backend, |x.blocks[p]|) && |x.blocks[p]| <= x.extents[p].bytes
    {
      PlacedRoom(x, p);
    }
    WasteImage(Slack(x), x.backend, x.blocks, held, places, tenant);
  }

  lemma {:induction false} WasteImage(slack: map<nat, nat>, backend: Backend, blocks: map<nat, seq<Cell>>,
                                      held: map<nat, Bytes>, places: map<nat, nat>, tenant: map<nat, nat>)
    requires Housed(held, places, tenant, blocks) && slack.Keys == blocks.Keys
    requires forall p :: p in slack ==> slack[p] == Room(backend, |blocks[p]|) - |blocks[p]|
    ensures Sum(slack) == Sum(HeldWaste(held, backend))
  {
    hide Room;
    forall p | p in slack ensures exists h :: h in HeldWaste(held, backend) && places[h] == p {
      assert tenant[p] in HeldWaste(held, backend);
    }
    ImageSum(HeldWaste(held, backend), slack, places);
  }

  lemma PlacedRoom(x: Shape, p: nat)
    requires Sound(x) && p in x.blocks
    ensures p in x.extents && x.extents[p].bytes == Room(x.backend, |x.blocks[p]|) && |x.blocks[p]| <= x.extents[p].bytes
  {
    hide ListsOk, MemoryOk, Spaced, Labelled, IsExtentOf;
    ExtentIsRoom(x.extents[p], x.backend, |x.blocks[p]|);
  }

  // ---- Peaks ----

  ghost predicate PeaksAre(peaks: seq<nat>, script: seq<BlockCommand>, backend: Backend) {
    |peaks| == CLASS_COUNT && forall i :: 0 <= i < CLASS_COUNT ==> peaks[i] == Peak(script, backend, i)
  }

  /** One more command: the running maximum follows the values held after it. */
  lemma {:induction false} PeaksFollow(before: seq<nat>, peaks: seq<nat>, x: Shape, script: seq<BlockCommand>,
                                       command: BlockCommand, places: map<nat, nat>, tenant: map<nat, nat>)
    requires Sound(x) && Housed(Held(script + [command]), places, tenant, x.blocks)
    requires PeaksAre(before, script, x.backend) && PeaksTrack(before, peaks, x)
    ensures PeaksAre(peaks, script + [command], x.backend)
  {
    hide Sound, Housed, LiveOf, InClass, Held;
    assert (script + [command])[..|script|] == script;
    forall i | 0 <= i < CLASS_COUNT ensures peaks[i] == Peak(script + [command], x.backend, i) {
      LiveCount(x, Held(script + [command]), places, tenant, i);
    }
  }

  // ---- The run ----

  /** The allocator has served a script: clients remember, as a cache entry does, each block and its size. */
  ghost predicate Serves(a: ValueAllocator, script: seq<BlockCommand>, places: map<nat, nat>, sizes: map<nat, nat>,
                         tenant: map<nat, nat>)
    reads a, a.Repr
  {
    && a.Valid()
    && Housed(Held(script), places, tenant, a.Blocks())
    && Stored(Held(script), places, a.Blocks())
    && sizes == SizesOf(Held(script))
    && PeaksAre(a.peaks, script, a.backend)
    && a.metrics.allocationCount == Puts(script)
  }

  function SizesOf(held: map<nat, Bytes>): map<nat, nat> {
    map h | h in held :: |held[h]|
  }

  lemma {:induction false} HeldMore(script: seq<BlockCommand>, command: BlockCommand)
    ensures Held(script + [command])
         == match command
            case Put(value) => Held(script)[|script| := value]
            case Drop(handle) => Held(script) - {handle}
    ensures |script| !in Held(script)
  {
    assert (script + [command])[..|script|] == script;
    HeldBound(script);
  }

  lemma HealthyIsSound(a: ValueAllocator)
    requires a.Valid()
    ensures Sound(a.shape) && a.shape.backend == a.backend
  {
    hide Sound;
  }

  method PutStep(a: ValueAllocator, n: nat, value: Bytes, places: map<nat, nat>, sizes: map<nat, nat>,
                 ghost script: seq<BlockCommand>, ghost tenant: map<nat, nat>)
    returns (places': map<nat, nat>, sizes': map<nat, nat>, ghost tenant': map<nat, nat>)
    requires n == |script| && Serves(a, script, places, sizes, tenant)
    modifies a.Repr
    ensures Serves(a, script + [Put(value)], places', sizes', tenant')
  {
    hide ValueAllocator.Valid, Housed, Stored, Held, PeaksTrack, PeaksAre, Taken, Puts;
    HeldMore(script, Put(value));
    PutsMore(script, Put(value));
    sizes' := sizes[n := |value|];
    if value == [] {
      var p := a.Allocate(0);
      places', tenant' := places[n := p], tenant;
      PutNothing(Held(script), places, tenant, a.Blocks(), n);
      KeepStored(Held(script), places, a.Blocks(), n);
      HealthyIsSound(a);
      PeaksFollow(old(a.peaks), a.peaks, a.shape, script, Put(value), places', tenant');
    } else {
      var p;
      p, places', tenant' := PutValue(a, n, value, places, script, tenant);
    }
  }

  /** Takes a block and copies a non-empty value into it. */
  method PutValue(a: ValueAllocator, n: nat, value: Bytes, places: map<nat, nat>, ghost script: seq<BlockCommand>,
                  ghost tenant: map<nat, nat>)
    returns (p: nat, places': map<nat, nat>, ghost tenant': map<nat, nat>)
    requires a.Valid() && Housed(Held(script), places, tenant, a.Blocks()) && Stored(Held(script), places, a.Blocks())
    requires PeaksAre(a.peaks, script, a.backend)
    requires n == |script| && n !in Held(script) && value != [] && Held(script + [Put(value)]) == Held(script)[n := value]
    modifies a.Repr
    ensures a.Valid() && PeaksAre(a.peaks, script + [Put(value)], a.backend)
    ensures Housed(Held(script + [Put(value)]), places', tenant', a.Blocks())
    ensures Stored(Held(script + [Put(value)]), places', a.Blocks())
    ensures a.metrics.allocationCount == old(a.metrics.allocationCount) + 1
  {
    hide ValueAllocator.Valid, Housed, Stored, Held, PeaksTrack, PeaksAre;
    ghost var held, blocks := Held(script), a.Blocks();
    p := a.Allocate(|value|);
    places', tenant' := places[n := p], tenant[p := n];
    PutHoused(held, places, tenant, blocks, n, value, p, a.Blocks()[p]);
    HealthyIsSound(a);
    PeaksFollow(old(a.peaks), a.peaks, a.shape, script, Put(value), places', tenant');
    a.Store(p, value);
    assert a.Blocks() == blocks[p := AsCells(value)];
    PutHoused(held, places, tenant, blocks, n, value, p, AsCells(value));
    PutStored(held, places, tenant, blocks, n, value, p);
  }

  lemma KeepStored(held: map<nat, Bytes>, places: map<nat, nat>, blocks: map<nat, seq<Cell>>, n: nat)
    requires Stored(held, places, blocks) && n !in held
    ensures Stored(held[n := []], places[n := NULL], blocks)
  {
  }

  method DropStep(a: ValueAllocator, handle: nat, places: map<nat, nat>, sizes: map<nat, nat>,
                  ghost script: seq<BlockCommand>, ghost tenant: map<nat, nat>)
    returns (places': map<nat, nat>, sizes': map<nat, nat>, ghost tenant': map<nat, nat>)
    requires Serves(a, script, places, sizes, tenant)
    modifies a.Repr
    ensures Serves(a, script + [Drop(handle)], places', sizes', tenant')
  {
    hide ValueAllocator.Valid, Stored, Held, PeaksTrack, PeaksAre, Housed, Puts;
    HeldMore(script, Drop(handle));
    PutsMore(script, Drop(handle));
    ghost var held, peaks := Held(script), a.peaks;
    HealthyIsSound(a);
    HandleIsPlace(held, places, tenant, a.Blocks(), handle);
    places', sizes', tenant' := places, sizes, tenant;
    if handle in places {
      var p := places[handle];
      DropHoused(held, places, tenant, a.Blocks(), handle);
      a.Deallocate(p, sizes[handle]);
      places', sizes', tenant' := places - {handle}, sizes - {handle}, tenant - {p};
      HealthyIsSound(a);
      PeaksFollow(peaks, a.peaks, a.shape, script, Drop(handle), places', tenant');
    } else {
      assert held - {handle} == held;
      TrackNothing(a);
      PeaksFollow(peaks, a.peaks, a.shape, script, Drop(handle), places', tenant');
    }
  }

  lemma TrackNothing(a: ValueAllocator)
    requires a.Valid()
    ensures PeaksTrack(a.peaks, a.peaks, a.shape)
  {
    hide Healthy;
    PeaksStay(a.shape, a.metrics, a.peaks);
  }

  lemma HandleIsPlace(held: map<nat, Bytes>, places: map<nat, nat>, tenant: map<nat, nat>,
                      blocks: map<nat, seq<Cell>>, h: nat)
    requires Housed(held, places, tenant, blocks)
    ensures places.Keys == held.Keys && tenant.Keys == blocks.Keys && NULL !in blocks
    ensures h in held ==>
              if places[h] == NULL then |held[h]| == 0 else places[h] in blocks && |blocks[places[h]]| == |held[h]|
    ensures blocks - {NULL} == blocks && tenant - {NULL} == tenant
  {
  }

  /** What a run leaves behind. */
  datatype Outcome = Outcome(
    contents: map<nat, Bytes>,
    places: map<nat, nat>,
    metrics: Metrics,
    slabs: seq<nat>)

  /** Blocks of different values do not overlap, and all are aligned. */
  ghost predicate Apart(places: map<nat, nat>, held: map<nat, Bytes>) {
    && places.Keys == held.Keys
    && (forall h :: h in held ==> (places[h] == NULL <==> held[h] == []) && Aligned(places[h]))
    && (forall h, k :: h in held && k in held && h != k && held[h] != [] && held[k] != [] ==>
          places[h] + |held[h]| <= places[k] || places[k] + |held[k]| <= places[h])
  }

  ghost function SlabsNeeded(peaks: seq<nat>, n: nat): nat
    requires n <= |peaks|
  {
    if n == 0 then 0 else SlabsNeeded(peaks, n - 1) + CeilingDiv(peaks[n - 1], PerSlab(n - 1))
  }

  /** The blocks of class `i` that are carved and hold no value. */
  ghost function FreeOf(held: map<nat, Bytes>, peaks: seq<nat>, backend: Backend, i: nat): int
    requires i < |peaks|
  {
    Times(CeilingDiv(peaks[i], PerSlab(i)), PerSlab(i)) - |InClass(held, backend, i)|
  }

  /** Their bytes, over the first `n` classes. */
  ghost function FreeTotal(held: map<nat, Bytes>, peaks: seq<nat>, backend: Backend, n: nat): int
    requires n <= |peaks|
  {
    if n == 0 then 0 else
      FreeTotal(held, peaks, backend, n - 1) + FreeOf(held, peaks, backend, n - 1) * ClassSize(n - 1)
  }

  /** The sums over classes, class by class. */
  lemma {:induction false} ClassSums(x: Shape, held: map<nat, Bytes>, peaks: seq<nat>, n: nat)
    requires |x.frees| == |x.slabs| == |peaks| == CLASS_COUNT && n <= CLASS_COUNT
    requires forall i :: 0 <= i < CLASS_COUNT ==>
               |x.slabs[i]| == CeilingDiv(peaks[i], PerSlab(i)) && |x.frees[i]| == FreeOf(held, peaks, x.backend, i)
    ensures FreeBytes(x.frees, n) == FreeTotal(held, peaks, x.backend, n)
    ensures SlabTotal(x.slabs, n) == SlabsNeeded(peaks, n)
  {
    hide FreeOf, CeilingDiv, PerSlab, ClassSize, Times;
    if n != 0 {
      ClassSums(x, held, peaks, n - 1);
      TimesIsProduct(|x.frees[n - 1]|, ClassSize(n - 1));
    }
  }

  /** All the allocator's figures, from the values held and the most that were held of each class. */
  ghost predicate Footprint(held: map<nat, Bytes>, peaks: seq<nat>, backend: Backend, metrics: Metrics, slabs: seq<nat>) {
    && |slabs| == |peaks| == CLASS_COUNT
    && metrics.usedBytes == Sum(HeldSizes(held))
    && metrics.allocationCount == metrics.deallocationCount + |HeldSizes(held)|
    && metrics.internalFragmentation == Sum(HeldWaste(held, backend))
    && metrics.freeBytes == FreeTotal(held, peaks, backend, CLASS_COUNT)
    && metrics.slabCount == SlabsNeeded(peaks, CLASS_COUNT)
    && metrics.allocatedBytes == metrics.usedBytes + metrics.freeBytes + metrics.internalFragmentation
    && forall i :: 0 <= i < CLASS_COUNT ==> slabs[i] == CeilingDiv(peaks[i], PerSlab(i))
  }

  /** How many puts of a script took a block. */
  function Puts(script: seq<BlockCommand>): nat {
    if script == [] then 0 else
      var last := script[|script| - 1];
      Puts(script[..|script| - 1]) + if last.Put? && last.value != [] then 1 else 0
  }

  lemma PutsMore(script: seq<BlockCommand>, command: BlockCommand)
    ensures Puts(script + [command]) == Puts(script) + if command.Put? && command.value != [] then 1 else 0
  {
    assert (script + [command])[..|script|] == script;
  }

  ghost function PeaksOf(script: seq<BlockCommand>, backend: Backend): seq<nat> {
    seq(CLASS_COUNT, i requires 0 <= i => Peak(script, backend, i))
  }

  lemma {:induction false} ServedApart(a: ValueAllocator, script: seq<BlockCommand>, places: map<nat, nat>,
                                       sizes: map<nat, nat>, tenant: map<nat, nat>)
    requires Serves(a, script, places, sizes, tenant)
    ensures Apart(places, Held(script))
  {
    hide Held, Stored, PeaksAre, Healthy;
    AllocatorGuarantees(a, 0);
  }

  lemma HousedFootprint(a: ValueAllocator, held: map<nat, Bytes>, places: map<nat, nat>, tenant: map<nat, nat>,
                        slabs: seq<nat>)
    requires a.Valid() && Housed(held, places, tenant, a.Blocks())
    requires |slabs| == CLASS_COUNT == |a.classes| && forall i :: 0 <= i < CLASS_COUNT ==> slabs[i] == |a.classes[i].slabs|
    ensures Footprint(held, a.peaks, a.backend, a.metrics, slabs)
  {
    hide Housed, Healthy, PerSlab, Sum, CeilingDiv, Times, LiveOf, InClass, FreeBytes, SlabTotal, HeldWaste, FreeOf;
    HealthyIsSound(a);
    hide Sound;
    UsedIsHeld(held, places, tenant, a.Blocks());
    WasteIsHeld(a.shape, held, places, tenant);
    BlocksAreHeld(held, places, tenant, a.Blocks());
    LiveBlocksCounted(a);
    AllocatorGuarantees(a, 0);
    forall i | 0 <= i < CLASS_COUNT
      ensures slabs[i] == |a.shape.slabs[i]| == CeilingDiv(a.peaks[i], PerSlab(i))
      ensures |a.shape.frees[i]| == FreeOf(held, a.peaks, a.backend, i)
    {
      HousedClass(a, held, places, tenant, i);
    }
    ClassSums(a.shape, held, a.peaks, CLASS_COUNT);
  }

  lemma {:induction false} HousedClass(a: ValueAllocator, held: map<nat, Bytes>, places: map<nat, nat>,
                                       tenant: map<nat, nat>, i: nat)
    requires a.Valid() && Housed(held, places, tenant, a.Blocks()) && i < CLASS_COUNT
    ensures |a.classes| == |a.shape.slabs| == |a.shape.frees| == |a.peaks| == CLASS_COUNT
    ensures |a.classes[i].slabs| == |a.shape.slabs[i]| == CeilingDiv(a.peaks[i], PerSlab(i))
    ensures |a.shape.frees[i]| == FreeOf(held, a.peaks, a.backend, i)
  {
    hide Housed, ValueAllocator.Valid, PerSlab, LiveOf, InClass, CeilingDiv, Times;
    SlabCounts(a, i);
    HealthyIsSound(a);
    hide Sound;
    LiveCount(a.shape, held, places, tenant, i);
  }

  lemma {:induction false} SlabCounts(a: ValueAllocator, i: nat)
    requires a.Valid() && i < CLASS_COUNT
    ensures |a.classes| == |a.shape.slabs| == |a.shape.frees| == |a.peaks| == CLASS_COUNT
    ensures |a.classes[i].slabs| == |a.shape.slabs[i]| == CeilingDiv(a.peaks[i], PerSlab(i))
    ensures |a.shape.frees[i]| + |LiveOf(a.shape, i)| == Times(|a.shape.slabs[i]|, PerSlab(i))
  {
    hide Healthy, PerSlab, LiveOf, Sum, FreeBytes, SlabTotal, CeilingDiv, Times;
    AllocatorGuarantees(a, i);
  }

  lemma LiveBlocksCounted(a: ValueAllocator)
    requires a.Valid()
    ensures a.metrics.allocationCount == a.metrics.deallocationCount + |a.Blocks()|
  {
    hide Sound, PeaksOk;
  }

  lemma BlocksAreHeld(held: map<nat, Bytes>, places: map<nat, nat>, tenant: map<nat, nat>,
                      blocks: map<nat, seq<Cell>>)
    requires Housed(held, places, tenant, blocks)
    ensures |blocks| == |HeldSizes(held)|
  {
    var full := HeldSizes(held).Keys;
    ImageSize(full, places);
    assert blocks.Keys == set h | h in full :: places[h] by {
      forall p | p in blocks ensures p in set h | h in full :: places[h] {
        assert tenant[p] in full && places[tenant[p]] == p;
      }
    }
  }

  /**
   The allocator over a whole run, for either backend.  Every value still held
   reads back as it was put, whatever was allocated, freed or carved since; blocks
   never overlap; the counters and the number of slabs of each class follow from
   the history, slabs being the ceiling of the most blocks of that class ever held
   at once.
   */
  method Replay(backend: Backend, script: seq<BlockCommand>) returns (outcome: Outcome)
    ensures outcome.contents == Held(script)
    ensures Apart(outcome.places, Held(script))
    ensures Footprint(Held(script), PeaksOf(script, backend), backend, outcome.metrics, outcome.slabs)
    ensures outcome.metrics.allocationCount == Puts(script)
  {
    hide ValueAllocator.Valid, Housed, Stored, Held, Puts, Footprint;
    var a := new ValueAllocator(backend);
    var places: map<nat, nat>, sizes: map<nat, nat> := map[], map[];
    ghost var tenant: map<nat, nat> := map[];
    NothingServed(a);
    for n := 0 to |script|
      invariant fresh(a.Repr) && Serves(a, script[..n], places, sizes, tenant)
    {
      assert script[..n + 1] == script[..n] + [script[n]];
      match script[n] {
        case Put(value) => places, sizes, tenant := PutStep(a, n, value, places, sizes, script[..n], tenant);
        case Drop(handle) => places, sizes, tenant := DropStep(a, handle, places, sizes, script[..n], tenant);
      }
    }
    assert script[..|script|] == script;
    var contents := ReadBack(a, |script|, places, sizes, script, tenant);
    var slabs := CountSlabs(a);
    ServedApart(a, script, places, sizes, tenant);
    HousedFootprint(a, Held(script), places, tenant, slabs);
    assert a.peaks == PeaksOf(script, backend);
    outcome := Outcome(contents, places, a.metrics, slabs);
  }

  method CountSlabs(a: ValueAllocator) returns (slabs: seq<nat>)
    requires a.Valid()
    ensures |slabs| == CLASS_COUNT == |a.classes| && forall i :: 0 <= i < CLASS_COUNT ==> slabs[i] == |a.classes[i].slabs|
  {
    hide Healthy;
    slabs := [];
    for i := 0 to CLASS_COUNT
      invariant |slabs| == i && forall j :: 0 <= j < i ==> slabs[j] == |a.classes[j].slabs|
    {
      slabs := slabs + [|a.classes[i].slabs|];
    }
  }

  lemma NothingServed(a: ValueAllocator)
    requires a.Valid() && a.Blocks() == map[] && a.peaks == seq(CLASS_COUNT, _ => 0) && a.metrics.allocationCount == 0
    ensures Serves(a, [], map[], map[], map[])
  {
    hide Healthy;
  }

  /** Reads every held value out of its block. */
  method ReadBack(a: ValueAllocator, count: nat, places: map<nat, nat>, sizes: map<nat, nat>,
                  ghost script: seq<BlockCommand>, ghost tenant: map<nat, nat>)
    returns (contents: map<nat, Bytes>)
    requires Serves(a, script, places, sizes, tenant) && count == |script|
    ensures contents == Held(script)
  {
    hide ValueAllocator.Valid, Held, PeaksAre, Housed, Stored;
    contents := map[];
    ghost var held := Held(script);
    HeldBound(script);
    for h := 0 to count
      invariant forall k :: k in contents <==> k in held && k < h
      invariant forall k :: k in contents ==> contents[k] == held[k]
    {
      HandleIsPlace(held, places, tenant, a.Blocks(), h);
      if h in places {
        var value := [];
        if places[h] != NULL {
          value := a.Load(places[h], sizes[h]);
        }
        StoredReads(held, places, tenant, a.Blocks(), h);
        contents := contents[h := value];
      }
    }
  }

  lemma StoredReads(held: map<nat, Bytes>, places: map<nat, nat>, tenant: map<nat, nat>,
                    blocks: map<nat, seq<Cell>>, h: nat)
    requires Housed(held, places, tenant, blocks) && Stored(held, places, blocks) && h in held
    ensures h in places
    ensures if places[h] == NULL then held[h] == [] else places[h] in blocks && AsBytes(blocks[places[h]]) == held[h]
  {
    AsBytesOfAsCells(held[h]);
  }
}
