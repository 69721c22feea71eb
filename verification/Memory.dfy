/**
 The process heap.  An address holds a stored byte, the head of an intrusive
 free-list node, or nothing a program may rely on.
 */
module Memory {
  import opened Basics

  const NULL: nat := 0
  const NODE_SIZE: nat := 8

  /** The alignment of `std::max_align_t`, which both slabs and `::operator new` respect. */
  predicate Aligned(p: nat) {
    p % 16 == 0
  }

  datatype Cell = Byte(value: byte) | Link(next: nat) | Indeterminate

  type Cells = map<nat, Cell>

  function Peek(cells: Cells, a: nat): Cell {
    if a in cells then cells[a] else Indeterminate
  }

  function Contents(cells: Cells, p: nat, size: nat): seq<Cell> {
    seq(size, i requires 0 <= i => Peek(cells, p + i))
  }

  function AsCells(value: Bytes): seq<Cell> {
    seq(|value|, i requires 0 <= i < |value| => Byte(value[i]))
  }

  /** The inverse of AsCells on cells that all hold bytes. */
  function AsBytes(contents: seq<Cell>): Bytes {
    seq(|contents|, i requires 0 <= i < |contents| => if contents[i].Byte? then contents[i].value else 0)
  }

  lemma AsBytesOfAsCells(value: Bytes)
    ensures AsBytes(AsCells(value)) == value
  {
  }

  predicate Within(a: nat, p: nat, size: nat) {
    p <= a < p + size
  }

  /** `::operator new`: the region becomes addressable, with no particular contents. */
  function Reserve(cells: Cells, p: nat, size: nat): Cells {
    cells + map a | p <= a < p + size && Within(a, p, size) :: Indeterminate
  }

  /** `::operator delete`. */
  function Release(cells: Cells, p: nat, size: nat): Cells {
    cells - set a | p <= a < p + size && Within(a, p, size)
  }

  /** Placement new of a free-list node: the link overwrites the first bytes of the block. */
  function PlaceNode(cells: Cells, p: nat, next: nat): Cells {
    (cells + map a | p <= a < p + NODE_SIZE && Within(a, p, NODE_SIZE) :: Indeterminate)[p := Link(next)]
  }

  /** `memcpy` into a block. */
  function Write(cells: Cells, p: nat, value: Bytes): Cells {
    cells + map a | p <= a < p + |value| && Within(a, p, |value|) :: Byte(value[a - p])
  }

  predicate Unmapped(cells: Cells, p: nat, size: nat) {
    forall a :: p <= a < p + size ==> a !in cells
  }

  /** Two address spaces that differ at most inside one region. */
  ghost predicate SameOutside(cells: Cells, cells': Cells, p: nat, size: nat) {
    forall a :: !Within(a, p, size) ==> (a in cells <==> a in cells') && Peek(cells, a) == Peek(cells', a)
  }

  ghost predicate Extends(cells: Cells, cells': Cells) {
    forall a :: a in cells ==> a in cells' && Peek(cells', a) == Peek(cells, a)
  }

  lemma PlaceNodeOutside(cells: Cells, p: nat, next: nat, size: nat)
    requires NODE_SIZE <= size
    ensures SameOutside(cells, PlaceNode(cells, p, next), p, size)
    ensures Peek(PlaceNode(cells, p, next), p) == Link(next)
    ensures cells.Keys <= PlaceNode(cells, p, next).Keys
  {
  }

  lemma WriteOutside(cells: Cells, p: nat, value: Bytes, size: nat)
    requires |value| <= size
    ensures SameOutside(cells, Write(cells, p, value), p, size)
    ensures forall i :: 0 <= i < |value| ==> Peek(Write(cells, p, value), p + i) == Byte(value[i])
    ensures cells.Keys <= Write(cells, p, value).Keys
  {
  }

  lemma ReleaseOutside(cells: Cells, p: nat, size: nat)
    ensures SameOutside(cells, Release(cells, p, size), p, size)
  {
  }

  lemma ReserveExtends(cells: Cells, p: nat, size: nat)
    requires Unmapped(cells, p, size)
    ensures Extends(cells, Reserve(cells, p, size))
    ensures forall a :: p <= a < p + size ==> a in Reserve(cells, p, size)
  {
  }

  lemma {:induction false} Bound(addresses: set<nat>) returns (top: nat)
    ensures forall a :: a in addresses ==> a < top
  {
    if addresses == {} {
      top := 0;
    } else {
      var a :| a in addresses;
      var rest := Bound(addresses - {a});
      top := Max(rest, a + 1);
      assert forall b :: b in addresses ==> b == a || b in addresses - {a};
    }
  }

  class Heap {
    var cells: Cells

    constructor ()
      ensures cells == map[]
    {
      cells := map[];
    }

    /** Any suitably aligned region that is not in use may be returned, including one released before. */
    method New(size: nat) returns (p: nat)
      requires 0 < size
      modifies this
      ensures p != NULL && Aligned(p)
      ensures Unmapped(old(cells), p, size)
      ensures cells == Reserve(old(cells), p, size)
    {
      ghost var top := Bound(cells.Keys);
      assert Unmapped(cells, 16 * (top + 1), size) && Aligned(16 * (top + 1));
      p :| p != NULL && Aligned(p) && Unmapped(cells, p, size);
      cells := Reserve(cells, p, size);
    }
  }
}
