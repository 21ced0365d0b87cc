/**
 * The earlier variant of the dynamic array, whose operations (except pop)
 * return nothing. It stores the same four fields in the same layout, so it
 * works on the same `DynamicArray` objects. Each operation behaves as its
 * current counterpart with the result dropped, except `Free`, which resets
 * the array whether or not it had a buffer.
 */
module LegacyDynamicArrays {
  import opened Wrappers
  import opened Memory
  import opened Growth
  import opened ByteLayout
  import opened DynamicArrays

  /** create: as in the current variant. */
  method Create(elementSize: nat, capacity: nat, allocOk: bool) returns (a: DynamicArray)
    requires IsSize(elementSize) && IsSize(capacity) && IsSize(Extent(capacity, elementSize))
    ensures fresh(a) && a.Valid()
    ensures a.count == 0 && a.Elements() == []
    ensures allocOk ==> a.data != null && fresh(a.data) && a.capacity == capacity && a.elementSize == elementSize
    ensures !allocOk ==> a.data == null && a.capacity == 0 && a.elementSize == 0
  {
    a := new DynamicArray(elementSize, capacity, allocOk);
  }

  /**
   * push: appends `elem`, growing a full array first; when that
   * reallocation fails it returns silently with nothing changed.
   */
  method Push(a: DynamicArray, elem: seq<bv8>, reallocOk: bool)
    requires a.Valid()
    requires |elem| == a.elementSize
    requires a.count == a.capacity ==> IsSize(GrownCapacity(a.capacity)) && IsSize(Extent(GrownCapacity(a.capacity), a.elementSize))
    modifies a, a.data
    ensures a.Valid()
    ensures a.elementSize == old(a.elementSize)
    ensures old(a.count) < old(a.capacity) ==>
      a.count == old(a.count) + 1 && a.Elements() == old(a.Elements()) + [elem] && a.capacity == old(a.capacity) && a.data == old(a.data)
    ensures old(a.count) == old(a.capacity) && reallocOk ==>
      a.count == old(a.count) + 1 && a.Elements() == old(a.Elements()) + [elem] && a.capacity == GrownCapacity(old(a.capacity)) && fresh(a.data)
    ensures old(a.count) == old(a.capacity) && !reallocOk ==>
      a.count == old(a.count) && a.capacity == old(a.capacity) && a.data == old(a.data) && (a.data != null ==> a.data[..] == old(a.data[..]))
  {
    var _ := a.Push(elem, reallocOk);
  }

  /** get: element `i`, or None (NULL) when `i` is not below `count`. */
  function Get(a: DynamicArray, i: nat): (r: Option<seq<bv8>>)
    reads a, a.data
    requires a.Valid()
    ensures r.Some? <==> i < a.count
    ensures r.Some? ==> r.value == a.Elements()[i]
  {
    a.Get(i)
  }

  /** clear: sets only `count` to 0. */
  method Clear(a: DynamicArray)
    requires a.Valid()
    modifies a
    ensures a.Valid()
    ensures a.count == 0 && a.Elements() == []
    ensures a.capacity == old(a.capacity) && a.elementSize == old(a.elementSize) && a.data == old(a.data)
  {
    var _ := a.Clear();
  }

  /** free: releases any buffer and always leaves no buffer and every size 0. */
  method Free(a: DynamicArray)
    modifies a
    ensures a.Valid()
    ensures a.data == null && a.count == 0 && a.capacity == 0 && a.elementSize == 0
  {
    a.data := null;
    a.count, a.capacity, a.elementSize := 0, 0, 0;
  }

  /**
   * reserve: grows to exactly `newCapacity` when the capacity is smaller and
   * the reallocation succeeds; otherwise nothing changes. Elements are kept.
   */
  method Reserve(a: DynamicArray, newCapacity: nat, reallocOk: bool)
    requires a.Valid()
    requires IsSize(newCapacity) && IsSize(Extent(newCapacity, a.elementSize))
    modifies a
    ensures a.Valid()
    ensures a.count == old(a.count) && a.elementSize == old(a.elementSize) && a.Elements() == old(a.Elements())
    ensures a.capacity == if old(a.capacity) < newCapacity && reallocOk then newCapacity else old(a.capacity)
    ensures old(a.capacity) < newCapacity && reallocOk ==> fresh(a.data)
    ensures !(old(a.capacity) < newCapacity && reallocOk) ==> a.data == old(a.data)
  {
    var _ := a.Reserve(newCapacity, reallocOk);
  }

  /**
   * shrink: without elements, drops the buffer and zeroes the capacity and
   * element size; otherwise reallocates to exactly `count` elements, or
   * changes nothing when that fails.
   */
  method Shrink(a: DynamicArray, reallocOk: bool)
    requires a.Valid()
    modifies a
    ensures a.Valid()
    ensures a.Elements() == old(a.Elements())
    ensures old(a.count) == 0 ==> a.data == null && a.count == 0 && a.capacity == 0 && a.elementSize == 0
    ensures old(a.count) > 0 ==> a.count == old(a.count) && a.elementSize == old(a.elementSize)
    ensures old(a.count) > 0 && reallocOk ==> a.capacity == old(a.count) && fresh(a.data)
    ensures old(a.count) > 0 && !reallocOk ==> a.capacity == old(a.capacity) && a.data == old(a.data)
  {
    var _ := a.Shrink(reallocOk);
  }

  /**
   * pop: false on an empty array; otherwise removes the last element and,
   * when `dst` is given, copies its bytes into the start of `dst`.
   */
  method Pop(a: DynamicArray, dst: array?<bv8>) returns (ok: bool)
    requires a.Valid()
    requires dst != null ==> dst.Length >= a.elementSize && dst != a.data
    modifies a, dst
    ensures a.Valid()
    ensures ok <==> old(a.count) > 0
    ensures a.capacity == old(a.capacity) && a.elementSize == old(a.elementSize) && a.data == old(a.data)
    ensures a.data != null ==> a.data[..] == old(a.data[..])
    ensures ok ==> a.count == old(a.count) - 1 && a.Elements() == old(a.Elements())[..old(a.count) - 1]
    ensures ok && dst != null ==> dst[..a.elementSize] == old(a.Elements())[old(a.count) - 1]
    ensures ok && dst != null ==> dst[a.elementSize..] == old(dst[a.elementSize..])
    ensures !ok ==> a.count == old(a.count) && (dst != null ==> dst[..] == old(dst[..]))
  {
    ok := a.Pop(dst);
  }

  /**
   * copy: on allocation failure `dst` has no buffer and every size 0;
   * otherwise `dst` takes `src`'s sizes and a fresh buffer, and `src`'s
   * elements are copied into it when `src` has a buffer.
   */
  method Copy(src: DynamicArray, dst: DynamicArray, allocOk: bool)
    requires src.Valid()
    requires src != dst
    modifies dst
    ensures dst.Valid()
    ensures allocOk ==> dst.data != null && fresh(dst.data)
    ensures allocOk ==> dst.count == src.count && dst.capacity == src.capacity && dst.elementSize == src.elementSize
    ensures allocOk ==> dst.Elements() == src.Elements()
    ensures !allocOk ==> dst.data == null && dst.count == 0 && dst.capacity == 0 && dst.elementSize == 0
  {
    var _ := DynamicArrays.Copy(src, dst, allocOk);
  }
}
