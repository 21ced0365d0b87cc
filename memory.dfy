/**
 * The C allocator (malloc / realloc / free) and memcpy, as far as the
 * dynamic array uses them. Whether the allocator succeeds is not something
 * the array decides, so every allocating call takes it as a parameter `ok`.
 * A buffer is an `array<bv8>`; NULL is `null`.
 */
module Memory {

  /** One more than the largest value of a 64-bit `size_t`. */
  const SizeLimit: nat := 0x1_0000_0000_0000_0000

  /** `n` is representable as a `size_t`. */
  predicate IsSize(n: nat) {
    n < SizeLimit
  }

  function Min(a: nat, b: nat): nat {
    if a <= b then a else b
  }

  /** `malloc(size)`: a fresh buffer of `size` bytes, or NULL. */
  method Allocate(size: nat, ok: bool) returns (p: array?<bv8>)
    ensures ok ==> p != null && fresh(p) && p.Length == size
    ensures !ok ==> p == null
  {
    if ok {
      p := new bv8[size];
    } else {
      p := null;
    }
  }

  /**
   * `realloc(p, size)`: on success a buffer of `size` bytes whose first
   * min(old size, size) bytes are those of `p` (`p` NULL behaves as malloc);
   * on failure NULL, and `p` is left as it was.
   */
  method Reallocate(p: array?<bv8>, size: nat, ok: bool) returns (q: array?<bv8>)
    ensures ok ==> q != null && fresh(q) && q.Length == size
    ensures ok && p != null ==> q[..Min(size, p.Length)] == p[..Min(size, p.Length)]
    ensures !ok ==> q == null
  {
    if !ok {
      return null;
    }
    q := new bv8[size];
    if p != null {
      var kept := Min(size, p.Length);
      CopyInto(q, 0, p[..kept]);
      assert q[..kept] == p[..kept];
    }
  }

  /** `memcpy(dst + at, src, |src|)`: overwrites exactly `|src|` bytes of `dst` starting at `at`. */
  method CopyInto(dst: array<bv8>, at: nat, src: seq<bv8>)
    requires at + |src| <= dst.Length
    modifies dst
    ensures dst[..] == old(dst[..at]) + src + old(dst[at + |src|..])
  {
    var k := 0;
    while k < |src|
      invariant 0 <= k <= |src|
      invariant forall j :: 0 <= j < at ==> dst[j] == old(dst[j])
      invariant forall j :: 0 <= j < k ==> dst[at + j] == src[j]
      invariant forall j :: at + k <= j < dst.Length ==> dst[j] == old(dst[j])
    {
      dst[at + k] := src[k];
      k := k + 1;
    }
    assert dst[..] == old(dst[..at]) + src + old(dst[at + |src|..]) by {
      forall j | 0 <= j < dst.Length
        ensures dst[j] == (old(dst[..at]) + src + old(dst[at + |src|..]))[j]
      {
        if j >= at && j < at + |src| {
          assert dst[at + (j - at)] == src[j - at];
        }
      }
    }
  }
}
