/** The grow-only byte store (`m_colorBuffer`) in which the root process keeps
    the composited RGBA8 image between calls. */
module ResultBuffer {

  newtype byte = b: int | 0 <= b < 256

  function Max(a: nat, b: nat): nat
  {
    if a < b then b else a
  }

  function Zeros(k: nat): seq<byte>
  {
    seq(k, _ => 0)
  }

  /** `vector::resize` guarded by a size check: an undersized buffer grows to
      `n` bytes, padded with zero bytes; a large enough one is left alone. */
  function EnsureCapacity(buf: seq<byte>, n: nat): (r: seq<byte>)
    ensures |r| == Max(|buf|, n)
    ensures r[..|buf|] == buf
    ensures forall k :: |buf| <= k < |r| ==> r[k] == 0
  {
    if |buf| < n then buf + Zeros(n - |buf|) else buf
  }

  /** `memcpy(buf.data(), src, n)`: the first `n` bytes are taken from `src`,
      the rest of the buffer is kept. */
  function Overwrite(buf: seq<byte>, src: seq<byte>, n: nat): (r: seq<byte>)
    requires n <= |buf| && n <= |src|
    ensures |r| == |buf|
    ensures r[..n] == src[..n]
    ensures r[n..] == buf[n..]
  {
    src[..n] + buf[n..]
  }

  /** One root-side store of an `n`-byte engine image: grow if needed, then copy. */
  function Store(buf: seq<byte>, src: seq<byte>, n: nat): (r: seq<byte>)
    requires n <= |src|
    ensures |r| == Max(|buf|, n)
    ensures |r| >= |buf|
    ensures r[..n] == src[..n]
    ensures forall k :: n <= k < |r| ==> k < |buf| && r[k] == buf[k]
  {
    Overwrite(EnsureCapacity(buf, n), src, n)
  }

  /** Growing twice is growing once to the larger of the two sizes. */
  lemma EnsureCapacityComposes(buf: seq<byte>, n: nat, m: nat)
    ensures EnsureCapacity(EnsureCapacity(buf, n), m) == EnsureCapacity(buf, Max(n, m))
  {
  }

  /** Storing the same image twice leaves the buffer as one store does. */
  lemma StoreIdempotent(buf: seq<byte>, src: seq<byte>, n: nat)
    requires n <= |src|
    ensures Store(Store(buf, src, n), src, n) == Store(buf, src, n)
  {
  }

  /** A later image of the same size replaces every byte of the earlier one. */
  lemma StoreOverwritesPreviousFrame(buf: seq<byte>, first: seq<byte>, second: seq<byte>, n: nat)
    requires n <= |first| && n <= |second|
    ensures Store(Store(buf, first, n), second, n) == Store(buf, second, n)
  {
  }
}
