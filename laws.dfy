/**
 * Laws about sequences of operations on one dynamic array, each proved from
 * the operations' contracts alone, as a caller of the array would.
 */
module DynamicArrayLaws {
  import opened Wrappers
  import opened Memory
  import opened Growth
  import opened ByteLayout
  import opened DynamicArrays

  /**
   * Four-byte elements, initial capacity 2: pushing 10, 20 and 30 grows the
   * array once, to capacity 4, and the three values read back in order.
   */
  method GrowOnThirdPush() returns (a: DynamicArray)
    ensures a.Valid() && a.count == 3 && a.capacity == 4
    ensures a.Get(0) == Some([10, 0, 0, 0])
    ensures a.Get(1) == Some([20, 0, 0, 0])
    ensures a.Get(2) == Some([30, 0, 0, 0])
    ensures a.Get(3) == None
  {
    a := new DynamicArray(4, 2, true);
    var ok := a.Push([10, 0, 0, 0], true);
    ok := a.Push([20, 0, 0, 0], true);
    ok := a.Push([30, 0, 0, 0], true);
    assert a.Elements() == [[10, 0, 0, 0], [20, 0, 0, 0], [30, 0, 0, 0]];
  }

  /** Popping the last element and pushing its bytes back restores the array. */
  method PopThenPush(a: DynamicArray, reallocOk: bool)
    requires a.Valid() && a.count > 0
    modifies a, a.data
    ensures a.Valid()
    ensures a.count == old(a.count) && a.capacity == old(a.capacity) && a.elementSize == old(a.elementSize)
    ensures a.Elements() == old(a.Elements())
  {
    ghost var elems := a.Elements();
    var last := new bv8[a.elementSize];
    var popped := a.Pop(last);
    assert a.count < a.capacity;
    assert last[..] == elems[|elems| - 1];
    var pushed := a.Push(last[..], reallocOk);
    assert elems == elems[..|elems| - 1] + [elems[|elems| - 1]];
  }

  /** A successful push followed by a pop returns the pushed bytes and the old elements. */
  method PushThenPop(a: DynamicArray, elem: seq<bv8>, reallocOk: bool) returns (pushed: bool, back: seq<bv8>)
    requires a.Valid() && |elem| == a.elementSize
    requires a.count == a.capacity ==> IsSize(GrownCapacity(a.capacity)) && IsSize(Extent(GrownCapacity(a.capacity), a.elementSize))
    modifies a, a.data
    ensures a.Valid()
    ensures pushed ==> back == elem
    ensures a.count == old(a.count) && a.Elements() == old(a.Elements())
  {
    pushed := a.Push(elem, reallocOk);
    back := [];
    if pushed {
      var out := new bv8[a.elementSize];
      var popped := a.Pop(out);
      back := out[..];
    }
  }

  /**
   * Clearing and then shrinking releases the buffer: no buffer, capacity 0,
   * and the element size is reset to 0 as well.
   */
  method ClearThenShrink(a: DynamicArray, reallocOk: bool)
    requires a.Valid()
    modifies a
    ensures a.Valid()
    ensures a.data == null && a.count == 0 && a.capacity == 0 && a.elementSize == 0
  {
    var cleared := a.Clear();
    var shrunk := a.Shrink(reallocOk);
  }

  /**
   * Copying a source of element size 4, capacity 8 and 3 elements gives a
   * destination with the same sizes and the same 3 elements.
   */
  method CopyThreeOfEight(src: DynamicArray, dst: DynamicArray) returns (ok: bool)
    requires src.Valid() && src != dst
    requires src.elementSize == 4 && src.capacity == 8 && src.count == 3
    modifies dst
    ensures ok && dst.Valid()
    ensures dst.capacity == 8 && dst.count == 3 && dst.elementSize == 4
    ensures forall i :: 0 <= i < 3 ==> dst.Get(i) == src.Get(i)
  {
    ok := DynamicArrays.Copy(src, dst, true);
  }
}
