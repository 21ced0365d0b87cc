/**
 * The capacity a full dynamic array grows to before a push.
 *
 * As written, push computes `capacity * 2`. From capacity 0 that is 0 again,
 * so a successful push then counts one element in an array of capacity 0
 * and, for a nonzero element size, writes it past the end of an empty
 * buffer. The model uses the evidently intended rule, "double, but at least
 * one slot".
 */
module Growth {
  import opened ByteLayout

  /** The new capacity push computes when the array is full, as written. */
  function DoubledCapacity(capacity: nat): nat {
    capacity * 2
  }

  /** The growth rule the rest of the model uses: double, but at least one slot. */
  function GrownCapacity(capacity: nat): nat {
    if capacity == 0 then 1 else capacity * 2
  }

  /**
   * After growing a full array (count == capacity), the bytes of the new
   * element, `Extent(count, size)` up to `Extent(count, size) + size`, lie
   * inside a buffer of `Extent(newCapacity, size)` bytes.
   */
  predicate SlotFits(count: nat, newCapacity: nat, size: nat) {
    Extent(count, size) + size <= Extent(newCapacity, size)
  }

  /**
   * The growth as written leaves no room for the element when a full array
   * of capacity 0 is pushed onto with a nonzero element size.
   */
  lemma DoubledCapacityHasNoSlotFromZero(size: nat)
    requires size > 0
    ensures DoubledCapacity(0) == 0
    ensures !SlotFits(0, DoubledCapacity(0), size)
  {
  }

  /**
   * The corrected growth always makes room for one more element, strictly
   * increases the capacity, and agrees with plain doubling whenever the
   * capacity was not 0.
   */
  lemma GrownCapacityHasSlot(capacity: nat, size: nat)
    ensures capacity < GrownCapacity(capacity)
    ensures SlotFits(capacity, GrownCapacity(capacity), size)
    ensures capacity > 0 ==> GrownCapacity(capacity) == DoubledCapacity(capacity)
  {
    ExtentMonotone(capacity + 1, GrownCapacity(capacity), size);
  }

  /** The bookkeeping of one push: how many elements are in use and how many fit. */
  datatype Sizes = Sizes(count: nat, capacity: nat)

  /**
   * The sizes push leaves and its result, with the growth step as written:
   * a full array asks for `DoubledCapacity`, and on success the element is
   * stored and counted whatever that capacity is.
   */
  function PushSizesAsWritten(s: Sizes, reallocOk: bool): (Sizes, bool) {
    if s.count == s.capacity then
      if reallocOk then (Sizes(s.count + 1, DoubledCapacity(s.capacity)), true) else (s, false)
    else (Sizes(s.count + 1, s.capacity), true)
  }

  /** The same bookkeeping with the corrected growth rule, as the model's push does it. */
  function PushSizes(s: Sizes, reallocOk: bool): (Sizes, bool) {
    if s.count == s.capacity then
      if reallocOk then (Sizes(s.count + 1, GrownCapacity(s.capacity)), true) else (s, false)
    else (Sizes(s.count + 1, s.capacity), true)
  }

  /**
   * As written, a successful push onto a full array of capacity 0 leaves one
   * element counted in an array of capacity 0: the count exceeds the capacity.
   */
  lemma PushAsWrittenOverrunsFromZero()
    ensures PushSizesAsWritten(Sizes(0, 0), true) == (Sizes(1, 0), true)
    ensures PushSizesAsWritten(Sizes(0, 0), true).0.count > PushSizesAsWritten(Sizes(0, 0), true).0.capacity
  {
  }

  /**
   * With the corrected growth, every push keeps the count within the
   * capacity, and it agrees with the push as written whenever the array is
   * not a full array of capacity 0.
   */
  lemma PushSizesKeepCountWithinCapacity(s: Sizes, reallocOk: bool)
    requires s.count <= s.capacity
    ensures PushSizes(s, reallocOk).0.count <= PushSizes(s, reallocOk).0.capacity
    ensures s.capacity > 0 || s.count < s.capacity ==> PushSizes(s, reallocOk) == PushSizesAsWritten(s, reallocOk)
  {
    if s.count == s.capacity {
      GrownCapacityHasSlot(s.capacity, 0);
    }
  }
}
