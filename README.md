# Jester dynamic array, modelled in Dafny

The Jester standard library's dynamic array is a growable, type-agnostic,
contiguous container. A `DynamicArray` holds four fields:

- `data`: a heap buffer, or NULL.
- `count`: the number of elements in use.
- `capacity`: the number of elements the buffer has room for.
- `element_size`: the width of one element in bytes.

Elements are raw byte copies laid end to end: element `i` occupies bytes
`i * element_size` up to `(i + 1) * element_size`. The operations are
create, push, get, clear, free, reserve, shrink, pop and copy. Two variants
exist:

- The current one in `src/data_structures/array/jester_dynamic_array.c`
  returns a `bool` from most operations.
- The earlier one in `src/datastructs/array/jester-dynamic-array.c`
  returns nothing from most operations.

## How the model is built

- `memory.dfy` (module `Memory`) stands in for the C library calls the array uses:
  - `malloc` is `Allocate`, `realloc` is `Reallocate` and `memcpy` is `CopyInto`.
  - A buffer is an `array<bv8>`, and NULL is `null`.
  - Whether the allocator succeeds is passed in as a `bool` (`allocOk`, `reallocOk`). This way both outcomes of every allocating call are specified.
  - `IsSize` says that a number fits a 64-bit `size_t`.
- `byte_layout.dfy` (module `ByteLayout`) defines the byte layout:
  - `Extent(n, size)` is the byte size of `n` elements. It is proved equal to `n * size`.
  - `Split` reads bytes as elements, and `Join` writes elements as bytes. They are proved inverse to each other.
  - `SplitAt` locates element `i` in the bytes.
- `growth.dfy` (module `Growth`) holds the growth rule of push. See "## Findings".
- `dynamic_array.dfy` (module `DynamicArrays`) holds the class `DynamicArray` with the four fields and the current variant's operations:
  - `Valid()` is the object invariant:
    - `count <= capacity`;
    - the buffer holds exactly `capacity` elements;
    - an array with no buffer has capacity 0;
    - every size fits a `size_t`.
  - `Elements()` is the sequence of elements in use, each as its bytes.
  - Every mutating method states its new state in terms of the old one, including what stays unchanged on the failure paths.
- `legacy_dynamic_array.dfy` (module `LegacyDynamicArrays`) models the earlier variant on the same class:
  - Each of its operations is the current one with the `bool` result dropped. Pop still returns its `bool`, and get still returns the element.
  - The exception is `Free`, which resets the array whether or not it had a buffer.
- `laws.dfy` (module `DynamicArrayLaws`) proves properties of call sequences from the contracts alone:
  - three pushes into capacity 2 grow it to 4;
  - pop followed by push restores the array;
  - push followed by pop returns the pushed bytes;
  - clear followed by shrink releases the buffer;
  - copy reproduces a source of 3 elements in capacity 8.

## Where the code and its documentation differ

The model follows the code in each case:

- **Shrink on an empty array.** `shrink_dynamic_array` returns `false` after it releases the buffer of an empty array (`jester_dynamic_array.c:164-170`). The header says it returns true when the buffer was freed (`jester_dynamic_array.h:168-169`).
  - Shrink also resets `element_size` to 0.
  - So after clear and shrink, the array holds only zero-width elements until it is created again (`DynamicArrayLaws.ClearThenShrink`).
- **Copy from a source with no buffer.** `copy_dynamic_array` returns `false` (`jester_dynamic_array.c:243`), but the destination keeps the copied sizes and its freshly allocated buffer. The array is not reset.
- **What free tests.** `free_dynamic_array` tests `data == NULL`, not `count == 0` (`jester_dynamic_array.c:112`). An array with a buffer and no elements is therefore freed and reports `true`.
- **Create with capacity 0.** `create_dynamic_array` still calls `malloc(0)`. If that returns a non-NULL pointer (`allocOk`), the array has a zero-length buffer, the requested element size and capacity 0. It is not the all-zero state.

## Model

| member | source | states |
|---|---|---|
| `DynamicArrays.DynamicArray.Elements` | include/jester/data_structures/array/jester_dynamic_array.h:40-46 | the elements in use are exactly `count` byte strings, each `element_size` bytes wide, read from the front of the buffer |
| `DynamicArrays.DynamicArray.constructor` | src/data_structures/array/jester_dynamic_array.c:29-44 | on allocation success: a fresh buffer, no elements, the requested capacity and element size; on failure: no buffer, and count, capacity and element size all 0 |
| `DynamicArrays.DynamicArray.Push` | src/data_structures/array/jester_dynamic_array.c:50-76 | true exactly when there was room or the reallocation succeeded; on success the element is appended, earlier elements are kept, and a full array's capacity becomes exactly the grown capacity (2x when nonzero); on failure count, capacity, buffer and its bytes are unchanged; count, capacity and result are those of `Growth.PushSizes` |
| `DynamicArrays.DynamicArray.Get` | src/data_structures/array/jester_dynamic_array.c:82-92 | absent exactly when `i >= count`; otherwise element `i` of `Elements()` |
| `DynamicArrays.DynamicArray.Clear` | src/data_structures/array/jester_dynamic_array.c:98-103 | always true; no elements remain; capacity, element size and buffer unchanged |
| `DynamicArrays.DynamicArray.Free` | src/data_structures/array/jester_dynamic_array.c:109-128 | true exactly when there was a buffer, and then no buffer remains and every size is 0; without a buffer, false and the sizes are unchanged |
| `DynamicArrays.DynamicArray.Reserve` | src/data_structures/array/jester_dynamic_array.c:134-155 | never changes count, element size or elements; true when the capacity already suffices (no change) or the reallocation succeeds (capacity exactly `newCapacity`); false only on reallocation failure, with no change |
| `DynamicArrays.DynamicArray.Shrink` | src/data_structures/array/jester_dynamic_array.c:161-186 | without elements: false, no buffer, capacity and element size 0; otherwise the result is the reallocation outcome, elements are kept, and the capacity becomes `count` on success and is unchanged on failure |
| `DynamicArrays.DynamicArray.Pop` | src/data_structures/array/jester_dynamic_array.c:192-211 | false and no change on an empty array; otherwise count drops by one, the last element is removed, `dst` (when given) receives its bytes, and capacity and buffer are untouched |
| `DynamicArrays.Copy` | src/data_structures/array/jester_dynamic_array.c:217-244 | on allocation success `dst` has `src`'s count, capacity and element size, a fresh buffer and `src`'s elements, and the result is whether `src` had a buffer; on failure `dst` has no buffer and all sizes 0 |
| `ByteLayout.Split` | src/data_structures/array/jester_dynamic_array.c:71 | reading `Extent(n, size)` bytes gives `n` elements, each exactly `size` bytes |
| `ByteLayout.SplitAt` | src/data_structures/array/jester_dynamic_array.c:91 | element `i` is the `size` bytes at offset `Extent(i, size)`, and they lie inside the live bytes |
| `ByteLayout.SplitSnoc` | src/data_structures/array/jester_dynamic_array.c:71-73 | writing one element's bytes right after the live bytes appends exactly that element |
| `ByteLayout.SplitPrefix` | src/data_structures/array/jester_dynamic_array.c:201-202 | the first `m` elements depend only on the first `Extent(m, size)` bytes, so lowering the count drops exactly the trailing elements |
| `ByteLayout.SplitJoin` | src/data_structures/array/jester_dynamic_array.c:238 | writing uniform-width elements as bytes and reading them back gives the same elements |
| `ByteLayout.JoinSplit` | src/data_structures/array/jester_dynamic_array.c:238 | reading bytes as elements and writing them back gives the same bytes; with `SplitJoin`, the live bytes and the element sequence determine each other |
| `ByteLayout.ExtentIsProduct` | src/data_structures/array/jester_dynamic_array.c:34 | the byte size used for offsets and buffers equals `element_size * capacity` as the code computes it |
| `ByteLayout.ExtentMonotone` | src/data_structures/array/jester_dynamic_array.c:143 | a larger element count never needs fewer bytes, so growing the capacity keeps the live bytes inside the buffer |
| `Growth.DoubledCapacityHasNoSlotFromZero` | src/data_structures/array/jester_dynamic_array.c:55 | as written, growing a full array of capacity 0 gives capacity 0, which has no room for the pushed element |
| `Growth.PushAsWrittenOverrunsFromZero` | src/data_structures/array/jester_dynamic_array.c:53-73 | push's bookkeeping as written, after a successful push onto a full array of capacity 0, counts 1 element in capacity 0 |
| `Growth.PushSizesKeepCountWithinCapacity` | src/data_structures/array/jester_dynamic_array.c:53-73 | with the corrected growth every push keeps count within capacity, and it equals the push as written except on a full array of capacity 0 |
| `Growth.GrownCapacityHasSlot` | src/data_structures/array/jester_dynamic_array.c:53-63 | the corrected growth always increases the capacity and makes room for the pushed element, and it equals doubling whenever the capacity is nonzero |
| `LegacyDynamicArrays.Create` | src/datastructs/array/jester-dynamic-array.c:6-19 | as the current create: the requested sizes and an empty buffer, or the all-zero state on allocation failure |
| `LegacyDynamicArrays.Push` | src/datastructs/array/jester-dynamic-array.c:21-43 | with room or a successful reallocation, the element is appended (growing a full array to the grown capacity); on reallocation failure it returns silently with count, capacity, buffer and bytes unchanged |
| `LegacyDynamicArrays.Get` | src/datastructs/array/jester-dynamic-array.c:45-55 | element `i` when `i < count`, otherwise absent |
| `LegacyDynamicArrays.Clear` | src/datastructs/array/jester-dynamic-array.c:57-60 | only count changes, to 0 |
| `LegacyDynamicArrays.Free` | src/datastructs/array/jester-dynamic-array.c:62-72 | always leaves no buffer and count, capacity and element size 0, whether or not there was a buffer |
| `LegacyDynamicArrays.Reserve` | src/datastructs/array/jester-dynamic-array.c:74-90 | grows to exactly `newCapacity` only when it is larger than the capacity and the reallocation succeeds; otherwise nothing changes; elements are kept |
| `LegacyDynamicArrays.Shrink` | src/datastructs/array/jester-dynamic-array.c:92-110 | without elements: no buffer, capacity and element size 0; otherwise capacity becomes `count` on success and nothing changes on failure |
| `LegacyDynamicArrays.Pop` | src/datastructs/array/jester-dynamic-array.c:112-126 | false on an empty array; otherwise count drops by one and `dst` receives the removed element |
| `LegacyDynamicArrays.Copy` | src/datastructs/array/jester-dynamic-array.c:128-147 | on allocation failure `dst` has no buffer and all sizes 0; otherwise `dst` has `src`'s sizes and elements |
| `DynamicArrayLaws.GrowOnThirdPush` | src/data_structures/array/jester_dynamic_array.c:53-63 | with 4-byte elements and capacity 2, three pushes grow the capacity to exactly 4, and get returns the three values in order and absent at index 3 |
| `DynamicArrayLaws.PopThenPush` | src/data_structures/array/jester_dynamic_array.c:192-211 | popping the last element and pushing its bytes back restores count, capacity, element size and elements, whatever the allocator does |
| `DynamicArrayLaws.PushThenPop` | src/data_structures/array/jester_dynamic_array.c:50-76 | a successful push followed by a pop returns the pushed bytes and leaves the original elements |
| `DynamicArrayLaws.ClearThenShrink` | src/data_structures/array/jester_dynamic_array.c:164-170 | after clear, shrink leaves no buffer, capacity 0 and element size 0 |
| `DynamicArrayLaws.CopyThreeOfEight` | src/data_structures/array/jester_dynamic_array.c:217-239 | copying a source with element size 4, capacity 8 and 3 elements gives a destination with the same sizes and the same 3 elements |

## Findings

| source | as written | input that shows it | evidently intended | confidence | as-written member | corrected member |
|---|---|---|---|---|---|---|
| src/data_structures/array/jester_dynamic_array.c:55 | a full array grows to `capacity * 2` | an array created with capacity 0 and element size 4, then one push with a non-NULL `realloc` result: the new capacity is 0, count becomes 1, and 4 bytes are copied into a 0-byte buffer | grow to at least one slot (`capacity == 0 ? 1 : capacity * 2`) | not executed | `Growth.PushAsWrittenOverrunsFromZero` | `Growth.PushSizesKeepCountWithinCapacity` |

The earlier variant has the same growth step (`src/datastructs/array/jester-dynamic-array.c:25`).
Both variants' `Push` in the model use the corrected `Growth.GrownCapacity`. A full array of capacity 0 therefore grows to capacity 1. Any other capacity doubles exactly, as in the code.

## Left out

- DynamicArrays.DynamicArray.Push, LegacyDynamicArrays.Push: on a full array of capacity 0 with a successful reallocation, the code keeps capacity 0 and counts one element; the model grows to capacity 1 instead (see "## Findings"). This also covers the all-zero state left by free, shrink of an empty array or a failed create: there the element size is 0, `realloc(NULL, 0)` can succeed, and the code ends with count 1 and capacity 0 without writing out of bounds, while the model ends with capacity 1. `Growth.PushSizesAsWritten` records the code's count and capacity in both cases.
- Pointers and aliasing:
  - `get` returns a copy of the element's bytes, not a pointer into the buffer.
  - A successful `realloc` is always modelled as a move to a fresh buffer, even where C might resize in place.
  - The invalidation of pointers obtained earlier is not modelled.
- Implementation-defined allocator results, such as `malloc(0)` and `realloc(p, 0)`, are folded into the allocator-outcome parameter.
- Bytes beyond the live elements: after a reallocation, the model's buffer holds zero bytes where C leaves the contents indeterminate. No contract says anything about those bytes.
- `size_t` overflow: the model does not wrap. Each operation requires the sizes it computes to fit `size_t`:
  - create: `element_size * capacity`;
  - push: the grown capacity and its byte size;
  - reserve: `new_capacity * element_size`.
- The release of memory by `free` and `realloc` is not modelled. An old buffer is simply no longer referenced, and there is no heap accounting.
- The leak when `copy` overwrites a destination that already owns a buffer: the destination's buffer is simply replaced.
- Undefined caller misuse is excluded by preconditions:
  - push: an element whose length differs from `element_size`;
  - pop: a destination that overlaps the buffer or is shorter than one element;
  - copy: a source that is the destination itself.
- Every operation on an existing array except free requires `Valid()`, meaning an array made by create and not misused since. Free needs nothing, and create establishes `Valid()`.
- The console/file logger and its ring-buffer queue (`src/log/jester-log.c`) are I/O glue with no data dependency on the array. They are not part of this model.
