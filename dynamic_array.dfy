/**
 * The dynamic array of the current variant, whose operations report success
 * or failure as a `bool`: a growable, type-agnostic buffer of `count`
 * elements of `elementSize` bytes each, with room for `capacity` elements.
 */
module DynamicArrays {
  import opened Wrappers
  import opened Memory
  import opened ByteLayout
  import opened Growth

  class DynamicArray {
    /** The buffer of `capacity * elementSize` bytes, or `null` (NULL) when there is none. */
    var data: array?<bv8>
    /** Number of elements in use. */
    var count: nat
    /** Number of elements the buffer has room for. */
    var capacity: nat
    /** Width of one element in bytes. */
    var elementSize: nat

    /**
     * The object invariant: the elements in use fit the capacity, the buffer
     * holds exactly `capacity` elements, an array without a buffer has no
     * capacity, and every size is a `size_t`.
     */
    ghost predicate Valid()
      reads this
    {
      count <= capacity &&
      IsSize(capacity) && IsSize(elementSize) && IsSize(Extent(capacity, elementSize)) &&
      (data == null ==> capacity == 0) &&
      (data != null ==> data.Length == Extent(capacity, elementSize))
    }

    /** The bytes of the elements in use: the first `Extent(count, elementSize)` bytes of the buffer. */
    ghost function LiveBytes(): (bytes: seq<bv8>)
      reads this, data
      requires Valid()
      ensures |bytes| == Extent(count, elementSize)
      ensures data != null ==> Extent(count, elementSize) <= data.Length && bytes == data[..Extent(count, elementSize)]
    {
      if data == null then []
      else
        ExtentMonotone(count, capacity, elementSize);
        data[..Extent(count, elementSize)]
    }

    /** The elements in use, in order, each as its `elementSize` bytes. */
    ghost function Elements(): (elems: seq<seq<bv8>>)
      reads this, data
      requires Valid()
      ensures |elems| == count
      ensures Uniform(elems, elementSize)
    {
      Split(LiveBytes(), elementSize, count)
    }

    /**
     * create: a buffer for `capacity` elements of `elementSize` bytes and no
     * elements; if the allocation fails, an array with no buffer whose sizes
     * are all 0.
     */
    constructor (elementSize: nat, capacity: nat, allocOk: bool)
      requires IsSize(elementSize) && IsSize(capacity) && IsSize(Extent(capacity, elementSize))
      ensures Valid()
      ensures count == 0 && Elements() == []
      ensures allocOk ==> data != null && fresh(data) && this.capacity == capacity && this.elementSize == elementSize
      ensures !allocOk ==> data == null && this.capacity == 0 && this.elementSize == 0
    {
      var buffer := Allocate(Extent(capacity, elementSize), allocOk);
      data := buffer;
      if buffer == null {
        count, this.capacity, this.elementSize := 0, 0, 0;
      } else {
        this.elementSize, count, this.capacity := elementSize, 0, capacity;
      }
    }

    /**
     * push: appends `elem`. A full array first grows to `GrownCapacity`; if
     * that reallocation fails, nothing changes and the result is false.
     */
    method Push(elem: seq<bv8>, reallocOk: bool) returns (ok: bool)
      requires Valid()
      requires |elem| == elementSize
      requires count == capacity ==> IsSize(GrownCapacity(capacity)) && IsSize(Extent(GrownCapacity(capacity), elementSize))
      modifies this, data
      ensures Valid()
      ensures ok <==> old(count) < old(capacity) || reallocOk
      ensures elementSize == old(elementSize)
      ensures ok ==> count == old(count) + 1 && Elements() == old(Elements()) + [elem]
      ensures ok && old(count) < old(capacity) ==> capacity == old(capacity) && data == old(data)
      ensures ok && old(count) == old(capacity) ==> capacity == GrownCapacity(old(capacity)) && fresh(data)
      ensures !ok ==> count == old(count) && capacity == old(capacity) && data == old(data)
      ensures !ok && data != null ==> data[..] == old(data[..])
      ensures (Sizes(count, capacity), ok) == PushSizes(Sizes(old(count), old(capacity)), reallocOk)
    {
      ghost var live := LiveBytes();
      if count == capacity {
        var newCapacity := GrownCapacity(capacity);
        var grown := Reallocate(data, Extent(newCapacity, elementSize), reallocOk);
        if grown == null {
          return false;
        }
        GrownCapacityHasSlot(capacity, elementSize);
        data, capacity := grown, newCapacity;
      } else {
        ExtentMonotone(count + 1, capacity, elementSize);
      }
      var at := Extent(count, elementSize);
      assert at + elementSize <= data.Length;
      assert data[..at] == live;
      CopyInto(data, at, elem);
      assert data[..at + elementSize] == live + elem;
      SplitSnoc(live, elem, elementSize, count);
      count := count + 1;
      ok := true;
    }

    /** get: element `i`, or None (NULL) when `i` is not below `count`. */
    function Get(i: nat): (r: Option<seq<bv8>>)
      reads this, data
      requires Valid()
      ensures r.Some? <==> i < count
      ensures r.Some? ==> r.value == Elements()[i]
    {
      if i >= count then None
      else
        SplitAt(LiveBytes(), elementSize, count, i);
        var at := Extent(i, elementSize);
        Some(data[at..at + elementSize])
    }

    /** clear: no elements remain; the buffer and its capacity are kept. */
    method Clear() returns (ok: bool)
      requires Valid()
      modifies this
      ensures Valid()
      ensures ok
      ensures count == 0 && Elements() == []
      ensures capacity == old(capacity) && elementSize == old(elementSize) && data == old(data)
    {
      count := 0;
      ok := true;
    }

    /**
     * free: releases the buffer and zeroes every size; true exactly when
     * there was a buffer. Without a buffer it changes nothing.
     */
    method Free() returns (ok: bool)
      modifies this
      ensures ok <==> old(data) != null
      ensures data == null
      ensures ok ==> Valid() && count == 0 && capacity == 0 && elementSize == 0
      ensures !ok ==> count == old(count) && capacity == old(capacity) && elementSize == old(elementSize)
    {
      if data == null {
        return false;
      }
      data := null;
      count, capacity, elementSize := 0, 0, 0;
      ok := true;
    }

    /**
     * reserve: makes room for at least `newCapacity` elements. Never shrinks;
     * grows to exactly `newCapacity` when needed; false only when that
     * reallocation fails, and then nothing changes. The elements are kept.
     */
    method Reserve(newCapacity: nat, reallocOk: bool) returns (ok: bool)
      requires Valid()
      requires IsSize(newCapacity) && IsSize(Extent(newCapacity, elementSize))
      modifies this
      ensures Valid()
      ensures ok <==> newCapacity <= old(capacity) || reallocOk
      ensures count == old(count) && elementSize == old(elementSize) && Elements() == old(Elements())
      ensures capacity == if old(capacity) < newCapacity && ok then newCapacity else old(capacity)
      ensures old(capacity) < newCapacity && ok ==> fresh(data)
      ensures !(old(capacity) < newCapacity && ok) ==> data == old(data)
    {
      if capacity >= newCapacity {
        return true;
      }
      ghost var live := LiveBytes();
      var grown := Reallocate(data, Extent(newCapacity, elementSize), reallocOk);
      if grown == null {
        return false;
      }
      ExtentMonotone(count, capacity, elementSize);
      ExtentMonotone(capacity, newCapacity, elementSize);
      data, capacity := grown, newCapacity;
      assert data[..Extent(count, elementSize)] == live;
      ok := true;
    }

    /**
     * shrink: without elements, drops the buffer and zeroes the capacity and
     * element size, reporting false; otherwise reallocates to exactly `count`
     * elements, false (and no change) when that fails.
     */
    method Shrink(reallocOk: bool) returns (ok: bool)
      requires Valid()
      modifies this
      ensures Valid()
      ensures old(count) == 0 ==> !ok && data == null && count == 0 && capacity == 0 && elementSize == 0
      ensures old(count) > 0 ==> ok == reallocOk && count == old(count) && elementSize == old(elementSize)
      ensures Elements() == old(Elements())
      ensures old(count) > 0 && ok ==> capacity == old(count) && fresh(data)
      ensures old(count) > 0 && !ok ==> capacity == old(capacity) && data == old(data)
    {
      if count == 0 {
        data, capacity, elementSize := null, 0, 0;
        return false;
      }
      ghost var live := LiveBytes();
      var shrunk := Reallocate(data, Extent(count, elementSize), reallocOk);
      if shrunk == null {
        return false;
      }
      ExtentMonotone(count, capacity, elementSize);
      data, capacity := shrunk, count;
      assert data[..Extent(count, elementSize)] == live;
      ok := true;
    }

    /**
     * pop: removes the last element and, when `dst` is given, copies its
     * bytes into the start of `dst`. The buffer is not touched. On an empty
     * array it is false and nothing changes.
     */
    method Pop(dst: array?<bv8>) returns (ok: bool)
      requires Valid()
      requires dst != null ==> dst.Length >= elementSize && dst != data
      modifies this, dst
      ensures Valid()
      ensures ok <==> old(count) > 0
      ensures capacity == old(capacity) && elementSize == old(elementSize) && data == old(data)
      ensures data != null ==> data[..] == old(data[..])
      ensures ok ==> count == old(count) - 1 && Elements() == old(Elements())[..old(count) - 1]
      ensures ok && dst != null ==> dst[..elementSize] == old(Elements())[old(count) - 1]
      ensures ok && dst != null ==> dst[elementSize..] == old(dst[elementSize..])
      ensures !ok ==> count == old(count) && (dst != null ==> dst[..] == old(dst[..]))
    {
      if count == 0 {
        return false;
      }
      ghost var live := LiveBytes();
      SplitPrefix(live, elementSize, count, count - 1);
      SplitAt(live, elementSize, count, count - 1);
      count := count - 1;
      var at := Extent(count, elementSize);
      assert LiveBytes() == live[..at];
      if dst != null {
        CopyInto(dst, 0, data[at..at + elementSize]);
      }
      ok := true;
    }
  }

  /**
   * copy: `dst` takes the sizes of `src` and a fresh buffer of `src`'s
   * capacity holding `src`'s elements. If the allocation fails, `dst` has no
   * buffer and all its sizes are 0. The result is true only when the
   * allocation succeeds and `src` has a buffer; when `src` has none, `dst`
   * keeps the copied sizes and its new buffer.
   */
  method Copy(src: DynamicArray, dst: DynamicArray, allocOk: bool) returns (ok: bool)
    requires src.Valid()
    requires src != dst
    modifies dst
    ensures dst.Valid()
    ensures ok <==> allocOk && src.data != null
    ensures allocOk ==> dst.data != null && fresh(dst.data)
    ensures allocOk ==> dst.count == src.count && dst.capacity == src.capacity && dst.elementSize == src.elementSize
    ensures allocOk ==> dst.Elements() == src.Elements()
    ensures !allocOk ==> dst.data == null && dst.count == 0 && dst.capacity == 0 && dst.elementSize == 0
  {
    dst.count, dst.elementSize, dst.capacity := src.count, src.elementSize, src.capacity;
    var buffer := Allocate(Extent(src.capacity, src.elementSize), allocOk);
    dst.data := buffer;
    if buffer == null {
      dst.count, dst.elementSize, dst.capacity := 0, 0, 0;
      return false;
    }
    if src.data != null {
      ghost var live := src.LiveBytes();
      CopyInto(buffer, 0, src.data[..Extent(src.count, src.elementSize)]);
      assert dst.LiveBytes() == live;
      return true;
    }
    ok := false;
  }
}
