/** The linear sub-allocator of common/heap.h: a bump allocator that carves
    alignment-sized byte ranges out of one backing upload buffer, in order, and never
    gives any back. */
module Heap {
  import opened Wrappers
  import opened Device
  import opened Arith

  /** `Scene::VB_IB_SUB_ALLOCATOR_SIZE`: 16 MiB of geometry. */
  const VB_IB_SUB_ALLOCATOR_SIZE: nat := 16 * 1024 * 1024

  /** D3D12_CONSTANT_BUFFER_DATA_PLACEMENT_ALIGNMENT, the alignment of the one
      instantiation of the allocator (`Scene::VbIbBufferSubAllocator`). */
  const CONSTANT_BUFFER_DATA_PLACEMENT_ALIGNMENT: nat := 256

  /** `AlignTo`: the least multiple of `alignment` that is not below `x`. Sizes are
      unbounded here; the 64-bit wrap-around of `std::size_t` is `AlignTo64` below. */
  function AlignTo(x: nat, alignment: nat): (r: nat)
    requires alignment > 0
    ensures r % alignment == 0
    ensures x <= r < x + alignment
  {
    var q := (x + alignment - 1) / alignment;
    DivisionBounds(x + alignment - 1, alignment);
    MultipleMod(q, alignment);
    q * alignment
  }

  /** `BufferSubAllocation`: the backing resource, a byte offset into it and a byte size. */
  datatype BufferSubAllocation = BufferSubAllocation(resource: Handle, offset: nat, size: nat)

  datatype HeapError = CantSubAllocate

  /** The allocations handed out so far tile `[start, end)` exactly, in order: each one
      begins where the previous one ends. */
  ghost predicate Contiguous(allocs: seq<BufferSubAllocation>, start: nat, end: nat)
    decreases |allocs|
  {
    if allocs == [] then start == end
    else allocs[0].offset == start && Contiguous(allocs[1..], start + allocs[0].size, end)
  }

  /** Appending the range `[end, end + size)` keeps the tiling. */
  lemma {:induction false} ContiguousAppend(allocs: seq<BufferSubAllocation>, start: nat, end: nat, a: BufferSubAllocation)
    requires Contiguous(allocs, start, end)
    requires a.offset == end
    ensures Contiguous(allocs + [a], start, end + a.size)
    decreases |allocs|
  {
    if allocs == [] {
      assert allocs + [a] == [a];
      assert [a][1..] == [];
    } else {
      assert (allocs + [a])[1..] == allocs[1..] + [a];
      ContiguousAppend(allocs[1..], start + allocs[0].size, end, a);
    }
  }

  /** Every allocation of a tiling lies inside the tiled range. */
  lemma {:induction false} ContiguousWithin(allocs: seq<BufferSubAllocation>, start: nat, end: nat, i: nat)
    requires Contiguous(allocs, start, end)
    requires i < |allocs|
    ensures start <= allocs[i].offset
    ensures allocs[i].offset + allocs[i].size <= end
    decreases |allocs|
  {
    if i > 0 {
      ContiguousWithin(allocs[1..], start + allocs[0].size, end, i - 1);
    } else {
      ContiguousEnd(allocs[1..], start + allocs[0].size, end);
    }
  }

  lemma {:induction false} ContiguousEnd(allocs: seq<BufferSubAllocation>, start: nat, end: nat)
    requires Contiguous(allocs, start, end)
    ensures start <= end
    decreases |allocs|
  {
    if allocs != [] {
      ContiguousEnd(allocs[1..], start + allocs[0].size, end);
    }
  }

  /** Two allocations of a tiling never overlap, and the earlier one lies below the
      later one: the allocator hands out pairwise disjoint, increasing ranges. */
  lemma {:induction false} ContiguousDisjoint(allocs: seq<BufferSubAllocation>, start: nat, end: nat, i: nat, j: nat)
    requires Contiguous(allocs, start, end)
    requires i < j < |allocs|
    ensures allocs[i].offset + allocs[i].size <= allocs[j].offset
    ensures allocs[i].size > 0 ==> allocs[i].offset < allocs[j].offset
    decreases |allocs|
  {
    if i == 0 {
      ContiguousWithin(allocs[1..], start + allocs[0].size, end, j - 1);
    } else {
      ContiguousDisjoint(allocs[1..], start + allocs[0].size, end, i - 1, j - 1);
    }
  }

  /** When the tiling starts on an alignment boundary and every size is a multiple of
      the alignment, every offset (and the end) is a multiple of it too. */
  lemma {:induction false} ContiguousAligned(allocs: seq<BufferSubAllocation>, start: nat, end: nat, align: nat, i: nat)
    requires align > 0
    requires Contiguous(allocs, start, end)
    requires start % align == 0
    requires forall k | 0 <= k < |allocs| :: allocs[k].size % align == 0
    requires i < |allocs|
    ensures allocs[i].offset % align == 0
    decreases |allocs|
  {
    if i > 0 {
      SumOfMultiples(start, allocs[0].size, align);
      ContiguousAligned(allocs[1..], start + allocs[0].size, end, align, i - 1);
    }
  }

  /** `BufferSubAllocator<type, flags, align>`: one backing resource of `size` bytes and
      the offset of its first free byte. `allocations` records, for the proofs, what
      `subAllocate` has handed out. */
  class BufferSubAllocator {
    const resource: Handle
    const align: nat
    const size: nat
    var currentOffset: nat
    ghost var allocations: seq<BufferSubAllocation>

    ghost predicate Valid()
      reads this
    {
      align > 0 && size % align == 0 &&
      currentOffset % align == 0 &&
      Contiguous(allocations, 0, currentOffset) &&
      (forall k | 0 <= k < |allocations| :: allocations[k].resource == resource && allocations[k].size % align == 0) &&
      currentOffset <= size &&
      (allocations != [] ==> currentOffset < size)
    }

    /** The constructor: the capacity is the requested size rounded up to the alignment
        and nothing is allocated yet. `resource` is the buffer the device committed; the
        constructor's throw when `CreateCommittedResource` fails is not modelled. */
    constructor (resource: Handle, requestedSize: nat, align: nat)
      requires align > 0
      ensures Valid()
      ensures this.resource == resource && this.align == align
      ensures size == AlignTo(requestedSize, align)
      ensures currentOffset == 0 && allocations == []
    {
      this.resource := resource;
      this.align := align;
      this.size := AlignTo(requestedSize, align);
      currentOffset := 0;
      allocations := [];
    }

    /** `subAllocate`: reserve `AlignTo(request, align)` bytes at the current offset, or
        fail, changing nothing, when the reservation would reach the end of the buffer
        (the comparison is `>=`, so a reservation that exactly fills the buffer fails). */
    method SubAllocate(request: nat) returns (r: Result<BufferSubAllocation, HeapError>)
      requires Valid()
      modifies this
      ensures Valid()
      ensures old(currentOffset) + AlignTo(request, align) >= size ==>
                r == Failure(CantSubAllocate) &&
                currentOffset == old(currentOffset) && allocations == old(allocations)
      ensures old(currentOffset) + AlignTo(request, align) < size ==>
                r == Success(BufferSubAllocation(resource, old(currentOffset), AlignTo(request, align))) &&
                currentOffset == old(currentOffset) + AlignTo(request, align) &&
                allocations == old(allocations) + [r.value]
    {
      var subAllocation := BufferSubAllocation(resource, currentOffset, AlignTo(request, align));
      if currentOffset + subAllocation.size >= size {
        return Failure(CantSubAllocate);
      }
      ContiguousAppend(allocations, 0, currentOffset, subAllocation);
      SumOfMultiples(currentOffset, subAllocation.size, align);
      currentOffset := currentOffset + subAllocation.size;
      allocations := allocations + [subAllocation];
      r := Success(subAllocation);
    }
  }

  /** What every allocator in a valid state has handed out: ranges of its one resource,
      inside the buffer and short of its last byte, aligned, pairwise disjoint and in
      increasing order. */
  lemma AllocationsWellFormed(allocs: seq<BufferSubAllocation>, resource: Handle, align: nat, currentOffset: nat, size: nat, i: nat, j: nat)
    requires align > 0
    requires currentOffset <= size && (allocs != [] ==> currentOffset < size)
    requires Contiguous(allocs, 0, currentOffset)
    requires forall k | 0 <= k < |allocs| :: allocs[k].resource == resource && allocs[k].size % align == 0
    requires i <= j < |allocs|
    ensures allocs[i].resource == resource && allocs[j].resource == resource
    ensures allocs[i].offset % align == 0 && allocs[j].offset % align == 0
    ensures allocs[i].offset + allocs[i].size < size && allocs[j].offset + allocs[j].size < size
    ensures i < j ==> allocs[i].offset + allocs[i].size <= allocs[j].offset
  {
    ContiguousAligned(allocs, 0, currentOffset, align, i);
    ContiguousAligned(allocs, 0, currentOffset, align, j);
    ContiguousWithin(allocs, 0, currentOffset, i);
    ContiguousWithin(allocs, 0, currentOffset, j);
    if i < j {
      ContiguousDisjoint(allocs, 0, currentOffset, i, j);
    }
  }

  /** The renderer's allocator: 16 MiB is already a multiple of 256, so its capacity is
      exactly 16 MiB. */
  lemma VbIbAllocatorCapacity()
    ensures AlignTo(VB_IB_SUB_ALLOCATOR_SIZE, CONSTANT_BUFFER_DATA_PLACEMENT_ALIGNMENT) == VB_IB_SUB_ALLOCATOR_SIZE
  {
    var r := AlignTo(VB_IB_SUB_ALLOCATOR_SIZE, CONSTANT_BUFFER_DATA_PLACEMENT_ALIGNMENT);
    assert VB_IB_SUB_ALLOCATOR_SIZE == 65536 * 256;
    assert r % 256 == 0 && VB_IB_SUB_ALLOCATOR_SIZE <= r < VB_IB_SUB_ALLOCATOR_SIZE + 256;
    assert r == (r / 256) * 256;
  }

  // ---------------------------------------------------------------------------------
  // `subAllocate` as written, in 64-bit `std::size_t` arithmetic.

  const SIZE_MODULUS: nat := 0x1_0000_0000_0000_0000

  type SizeT = x: nat | x < SIZE_MODULUS

  /** `AlignTo<std::size_t>` with the wrap-around of `x + alignment - 1`. */
  function AlignTo64(x: SizeT, alignment: SizeT): (r: SizeT)
    requires alignment > 0
    ensures x + alignment - 1 < SIZE_MODULUS ==> r == AlignTo(x, alignment)
  {
    AlignTo64Facts(x, alignment);
    ((x + alignment - 1) % SIZE_MODULUS / alignment) * alignment
  }

  /** The wrapped sum, rounded down to the alignment, stays a `size_t`, and without a
      wrap-around it is the unbounded `AlignTo`. */
  lemma AlignTo64Facts(x: SizeT, alignment: SizeT)
    requires alignment > 0
    ensures var n := (x + alignment - 1) % SIZE_MODULUS;
            0 <= (n / alignment) * alignment < SIZE_MODULUS &&
            (x + alignment - 1 < SIZE_MODULUS ==> (n / alignment) * alignment == AlignTo(x, alignment))
  {
    var v := x + alignment - 1;
    var n := v % SIZE_MODULUS;
    DivisionBounds(n, alignment);
    if v < SIZE_MODULUS {
      DivModUnique(v, SIZE_MODULUS, 0, v);
    }
  }

  /** `subAllocate` exactly as written, on the allocator's offset and capacity: the
      aligned size and the capacity comparison both wrap modulo 2^64. Returns the
      allocation and the new offset. */
  function SubAllocateAsWritten(resource: Handle, align: SizeT, size: SizeT, currentOffset: SizeT, request: SizeT): (r: Result<(BufferSubAllocation, SizeT), HeapError>)
    requires align > 0
    ensures r.Success? <==> (currentOffset + AlignTo64(request, align)) % SIZE_MODULUS < size
    ensures r.Failure? ==> r.error == CantSubAllocate
    ensures r.Success? ==> r.value.0.offset == currentOffset && r.value.0.resource == resource &&
                           r.value.0.size == AlignTo64(request, align) &&
                           r.value.1 == (currentOffset + r.value.0.size) % SIZE_MODULUS
  {
    var alignedSize := AlignTo64(request, align);
    if (currentOffset + alignedSize) % SIZE_MODULUS >= size then Failure(CantSubAllocate)
    else Success((BufferSubAllocation(resource, currentOffset, alignedSize), (currentOffset + alignedSize) % SIZE_MODULUS))
  }

  /** Where nothing wraps, the code as written decides and allocates exactly as the
      unbounded `subAllocate` does: the wrap-around is the only difference. */
  lemma SubAllocateAsWrittenAgrees(resource: Handle, align: SizeT, size: SizeT, currentOffset: SizeT, request: SizeT)
    requires align > 0
    requires request + align - 1 < SIZE_MODULUS
    requires currentOffset + AlignTo(request, align) < SIZE_MODULUS
    ensures var r := SubAllocateAsWritten(resource, align, size, currentOffset, request);
            (r.Success? <==> currentOffset + AlignTo(request, align) < size) &&
            (r.Success? ==> r.value.0 == BufferSubAllocation(resource, currentOffset, AlignTo(request, align)) &&
                            r.value.1 == currentOffset + AlignTo(request, align))
  {
    var s := currentOffset + AlignTo(request, align);
    DivModUnique(s, SIZE_MODULUS, 0, s);
  }

  /** The wrap-around lets a huge request through the capacity check of the 16 MiB
      allocator: at offset 256, a request of 2^64 - 256 bytes is granted a range far past
      the end of the buffer and the offset falls back to 0; a request of 2^64 - 1 bytes
      is granted 0 bytes. */
  lemma SubAllocateAsWrittenOverflows()
    ensures var r := SubAllocateAsWritten(0, 256, VB_IB_SUB_ALLOCATOR_SIZE, 256, SIZE_MODULUS - 256);
            r.Success? && r.value.0.offset + r.value.0.size > VB_IB_SUB_ALLOCATOR_SIZE && r.value.1 == 0
    ensures var r := SubAllocateAsWritten(0, 256, VB_IB_SUB_ALLOCATOR_SIZE, 256, SIZE_MODULUS - 1);
            r.Success? && r.value.0.size == 0
  {
    assert AlignTo64(SIZE_MODULUS - 256, 256) == SIZE_MODULUS - 256 by {
      assert SIZE_MODULUS - 256 == (0x1_0000_0000_0000_00 - 1) * 256;
    }
    assert AlignTo64(SIZE_MODULUS - 1, 256) == 0;
  }
}
