/**
 * How a dynamic array lays its elements out in its byte buffer: element `i`
 * of width `size` occupies the bytes from `Extent(i, size)` up to
 * `Extent(i + 1, size)`. `Split` reads a run of bytes as elements and `Join`
 * writes elements back as bytes; the lemmas show they are inverse to each
 * other and locate each element.
 */
module ByteLayout {

  /**
   * The number of bytes `n` elements of `size` bytes occupy. It is the
   * product `n * size` (see `ExtentIsProduct`); it is defined by counting so
   * that proofs about offsets stay linear.
   */
  function Extent(n: nat, size: nat): nat {
    if n == 0 then 0 else Extent(n - 1, size) + size
  }

  lemma {:induction false} ExtentIsProduct(n: nat, size: nat)
    ensures Extent(n, size) == n * size
  {
    if n > 0 {
      ExtentIsProduct(n - 1, size);
      assert (n - 1) * size + size == n * size;
    }
  }

  /** More elements never take fewer bytes. */
  lemma {:induction false} ExtentMonotone(a: nat, b: nat, size: nat)
    requires a <= b
    ensures Extent(a, size) <= Extent(b, size)
    decreases b
  {
    if a < b {
      ExtentMonotone(a, b - 1, size);
    }
  }

  /** Every element is exactly `size` bytes wide. */
  ghost predicate Uniform(elems: seq<seq<bv8>>, size: nat) {
    forall i :: 0 <= i < |elems| ==> |elems[i]| == size
  }

  /** The `n` elements of width `size` stored in `bytes`, in order. */
  function Split(bytes: seq<bv8>, size: nat, n: nat): (elems: seq<seq<bv8>>)
    requires |bytes| == Extent(n, size)
    ensures |elems| == n
    ensures Uniform(elems, size)
    decreases n
  {
    if n == 0 then []
    else Split(bytes[..Extent(n - 1, size)], size, n - 1) + [bytes[Extent(n - 1, size)..]]
  }

  /** The bytes of `elems`, one after the other. */
  function Join(elems: seq<seq<bv8>>): (bytes: seq<bv8>)
    decreases |elems|
  {
    if elems == [] then []
    else Join(elems[..|elems| - 1]) + elems[|elems| - 1]
  }

  /** Writing elements as bytes and reading them back gives the elements. */
  lemma {:induction false} SplitJoin(elems: seq<seq<bv8>>, size: nat)
    requires Uniform(elems, size)
    ensures |Join(elems)| == Extent(|elems|, size)
    ensures Split(Join(elems), size, |elems|) == elems
    decreases |elems|
  {
    if elems != [] {
      var n := |elems|;
      var init := elems[..n - 1];
      SplitJoin(init, size);
      var bytes := Join(elems);
      assert bytes == Join(init) + elems[n - 1];
      assert bytes[..Extent(n - 1, size)] == Join(init);
      assert bytes[Extent(n - 1, size)..] == elems[n - 1];
      assert elems == init + [elems[n - 1]];
    }
  }

  /** Reading bytes as elements and writing them back gives the bytes. */
  lemma {:induction false} JoinSplit(bytes: seq<bv8>, size: nat, n: nat)
    requires |bytes| == Extent(n, size)
    ensures Join(Split(bytes, size, n)) == bytes
    decreases n
  {
    if n > 0 {
      var cut := Extent(n - 1, size);
      var elems := Split(bytes, size, n);
      JoinSplit(bytes[..cut], size, n - 1);
      assert elems[..n - 1] == Split(bytes[..cut], size, n - 1);
      assert bytes == bytes[..cut] + bytes[cut..];
    }
  }

  /** Element `i` is the `size` bytes at offset `Extent(i, size)`. */
  lemma {:induction false} SplitAt(bytes: seq<bv8>, size: nat, n: nat, i: nat)
    requires |bytes| == Extent(n, size)
    requires i < n
    ensures Extent(i, size) + size <= |bytes|
    ensures Split(bytes, size, n)[i] == bytes[Extent(i, size)..Extent(i, size) + size]
    decreases n
  {
    if i < n - 1 {
      var prefix := bytes[..Extent(n - 1, size)];
      SplitAt(prefix, size, n - 1, i);
      var lo := Extent(i, size);
      assert prefix[lo..lo + size] == bytes[lo..lo + size];
    }
  }

  /** The first `m` elements are read from the first `Extent(m, size)` bytes alone. */
  lemma {:induction false} SplitPrefix(bytes: seq<bv8>, size: nat, n: nat, m: nat)
    requires |bytes| == Extent(n, size)
    requires m <= n
    ensures Extent(m, size) <= |bytes|
    ensures Split(bytes[..Extent(m, size)], size, m) == Split(bytes, size, n)[..m]
    decreases n
  {
    ExtentMonotone(m, n, size);
    if m < n {
      var prefix := bytes[..Extent(n - 1, size)];
      SplitPrefix(prefix, size, n - 1, m);
      ExtentMonotone(m, n - 1, size);
      assert prefix[..Extent(m, size)] == bytes[..Extent(m, size)];
    } else {
      assert bytes[..Extent(m, size)] == bytes;
    }
  }

  /** Appending one element's bytes appends that element. */
  lemma SplitSnoc(bytes: seq<bv8>, elem: seq<bv8>, size: nat, n: nat)
    requires |bytes| == Extent(n, size)
    requires |elem| == size
    ensures |bytes + elem| == Extent(n + 1, size)
    ensures Split(bytes + elem, size, n + 1) == Split(bytes, size, n) + [elem]
  {
  }
}
