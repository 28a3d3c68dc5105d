// Bytes and audio samples. The ring buffer stores bytes; one sample is `width` consecutive
// bytes. Everything that multiplies by `width` is proved here once.

module Samples {
  import opened CLib

  newtype Byte = x: int | -128 <= x < 128

  type Sample = seq<Byte>

  /** The `n` samples stored in a byte buffer. */
  function Chunk(bytes: seq<Byte>, n: nat, width: nat): (s: seq<Sample>)
    requires |bytes| == n * width
    ensures |s| == n
    ensures forall k :: 0 <= k < n ==> |s[k]| == width
  {
    seq(n, k requires 0 <= k < n => SampleAt(bytes, n, width, k))
  }

  function SampleAt(bytes: seq<Byte>, n: nat, width: nat, k: nat): (s: Sample)
    requires |bytes| == n * width && k < n
    ensures |s| == width
  {
    MulLe(k + 1, n, width);
    bytes[k * width..k * width + width]
  }

  /** The bytes of a sequence of samples, one after the other. */
  function Flatten(samples: seq<Sample>): seq<Byte> {
    if samples == [] then [] else samples[0] + Flatten(samples[1..])
  }

  lemma {:induction false} ChunkRest(bytes: seq<Byte>, rest: seq<Byte>, n: nat, width: nat)
    requires n > 0 && |bytes| == n * width && width <= |bytes| && rest == bytes[width..]
    ensures |rest| == (n - 1) * width
    ensures Chunk(bytes, n, width)[1..] == Chunk(rest, n - 1, width)
  {
    assert n * width == (n - 1) * width + width;
    forall k | 0 <= k < n - 1
      ensures Chunk(bytes, n, width)[1..][k] == Chunk(rest, n - 1, width)[k]
    {
      SampleBounds(k, n - 1, 0, width);
      assert (k + 1) * width == k * width + width;
    }
  }

  /** Chunking loses nothing: the samples laid end to end are the bytes. */
  lemma {:induction false} FlattenChunk(bytes: seq<Byte>, n: nat, width: nat)
    requires |bytes| == n * width
    ensures Flatten(Chunk(bytes, n, width)) == bytes
  {
    if n > 0 {
      MulLe(1, n, width);
      var rest := bytes[width..];
      ChunkRest(bytes, rest, n, width);
      FlattenChunk(rest, n - 1, width);
      assert Chunk(bytes, n, width)[0] == bytes[..width];
    }
  }

  /** Every sample is `width` bytes. */
  ghost predicate Uniform(samples: seq<Sample>, width: nat) {
    forall k :: 0 <= k < |samples| ==> |samples[k]| == width
  }

  lemma {:induction false} FlattenLength(samples: seq<Sample>, width: nat)
    requires Uniform(samples, width)
    ensures |Flatten(samples)| == |samples| * width
  {
    if samples != [] {
      FlattenLength(samples[1..], width);
      assert |samples| * width == (|samples| - 1) * width + width;
    }
  }

  lemma {:induction false} FlattenAppend(a: seq<Sample>, b: seq<Sample>)
    ensures Flatten(a + b) == Flatten(a) + Flatten(b)
  {
    if a == [] {
      assert a + b == b;
    } else {
      assert (a + b)[1..] == a[1..] + b;
      FlattenAppend(a[1..], b);
    }
  }

  /** The bytes of the last `n` samples are the last `n * width` bytes. */
  lemma {:induction false} FlattenLast(samples: seq<Sample>, n: nat, width: nat)
    requires Uniform(samples, width) && n <= |samples|
    ensures var all, last := Flatten(samples), Flatten(samples[|samples| - n..]);
            |last| == n * width && |last| <= |all| && last == all[|all| - |last|..]
  {
    var k := |samples| - n;
    FlattenLength(samples[k..], width);
    FlattenAppend(samples[..k], samples[k..]);
    assert samples[..k] + samples[k..] == samples;
  }

  /** The buffer that memcpy of `n` elements leaves behind. */
  function Spliced<T>(dest: seq<T>, destOffset: nat, src: seq<T>, srcOffset: nat, n: nat): (r: seq<T>)
    requires destOffset + n <= |dest| && srcOffset + n <= |src|
    ensures |r| == |dest|
  {
    dest[..destOffset] + src[srcOffset..srcOffset + n] + dest[destOffset + n..]
  }

  lemma SplicedAt<T>(dest: seq<T>, destOffset: nat, src: seq<T>, srcOffset: nat, n: nat, k: nat)
    requires destOffset + n <= |dest| && srcOffset + n <= |src| && k < |dest|
    ensures Spliced(dest, destOffset, src, srcOffset, n)[k]
            == if destOffset <= k < destOffset + n then src[k - destOffset + srcOffset] else dest[k]
  {
  }

  /** Filling a buffer with two pieces of another leaves the pieces end to end. */
  lemma TwoSplices<T>(dest: seq<T>, src: seq<T>, from: nat, first: nat)
    requires first <= |dest| && from + first <= |src| && |dest| - first <= |src|
    ensures Spliced(Spliced(dest, 0, src, from, first), first, src, 0, |dest| - first)
            == src[from..from + first] + src[..|dest| - first]
  {
  }

  /** A slice of a spliced buffer that lies in one of its three pieces. */
  lemma SpliceSlice<T>(dest: seq<T>, d: nat, src: seq<T>, s: nat, n: nat, at: nat, len: nat)
    requires d + n <= |dest| && s + n <= |src| && at + len <= |dest|
    ensures at + len <= d || d + n <= at ==> Spliced(dest, d, src, s, n)[at..at + len] == dest[at..at + len]
    ensures d <= at && at + len <= d + n ==>
              Spliced(dest, d, src, s, n)[at..at + len] == src[at - d + s..at - d + s + len]
  {
    forall i | at <= i < at + len
      ensures Spliced(dest, d, src, s, n)[i] == if d <= i < d + n then src[i - d + s] else dest[i]
    {
      SplicedAt(dest, d, src, s, n, i);
    }
  }

  /** Where sample `k` lies relative to the copied samples, in bytes. */
  lemma SampleBounds(k: nat, offset: nat, n: nat, width: nat)
    ensures k < offset ==> k * width + width <= offset * width
    ensures offset + n <= k ==> offset * width + n * width <= k * width
    ensures offset <= k < offset + n ==>
              offset * width <= k * width && k * width + width <= offset * width + n * width
  {
    assert k * width + width == (k + 1) * width;
    assert offset * width + n * width == (offset + n) * width;
    if k < offset { MulLe(k + 1, offset, width); }
    if offset + n <= k { MulLe(offset + n, k, width); }
    if offset <= k < offset + n {
      MulLe(offset, k, width);
      MulLe(k + 1, offset + n, width);
    }
  }

  lemma OffsetSum(a: int, b: int, c: int, width: int)
    ensures (a - b + c) * width == a * width - b * width + c * width
  {
  }

  lemma SpliceFits(count: nat, offset: nat, n: nat, width: nat)
    requires offset + n <= count
    ensures offset * width + n * width <= count * width
  {
    MulLe(offset + n, count, width);
    assert offset * width + n * width == (offset + n) * width;
  }

  lemma SpliceSample(dest: seq<Byte>, destCount: nat, destOffset: nat,
                     src: seq<Byte>, srcCount: nat, srcOffset: nat, n: nat, width: nat,
                     d: nat, s: nat, m: nat, k: nat)
    requires |dest| == destCount * width && |src| == srcCount * width
    requires destOffset + n <= destCount && srcOffset + n <= srcCount && k < destCount
    requires d == destOffset * width && s == srcOffset * width && m == n * width
    requires d + m <= |dest| && s + m <= |src|
    ensures SampleAt(Spliced(dest, d, src, s, m), destCount, width, k)
            == if destOffset <= k < destOffset + n
               then SampleAt(src, srcCount, width, k - destOffset + srcOffset)
               else SampleAt(dest, destCount, width, k)
  {
    var at, from := k * width, (k - destOffset + srcOffset) * width;
    assert at + width <= |dest| by { SampleBounds(k, destCount, 0, width); }
    SpliceSlice(dest, d, src, s, m, at, width);
    if destOffset <= k < destOffset + n {
      assert d <= at && at + width <= d + m by { SampleBounds(k, destOffset, n, width); }
      assert from == at - d + s by { OffsetSum(k, destOffset, srcOffset, width); }
    } else {
      assert at + width <= d || d + m <= at by { SampleBounds(k, destOffset, n, width); }
    }
  }

  /** Copying `n` whole samples between byte buffers is copying `n` entries between their samples. */
  lemma ChunkSplice(dest: seq<Byte>, destCount: nat, destOffset: nat,
                    src: seq<Byte>, srcCount: nat, srcOffset: nat, n: nat, width: nat,
                    d: nat, s: nat, m: nat)
    requires |dest| == destCount * width && |src| == srcCount * width
    requires destOffset + n <= destCount && srcOffset + n <= srcCount
    requires d == destOffset * width && s == srcOffset * width && m == n * width
    ensures d + m <= |dest| && s + m <= |src|
    ensures Chunk(Spliced(dest, d, src, s, m), destCount, width)
            == Spliced(Chunk(dest, destCount, width), destOffset, Chunk(src, srcCount, width), srcOffset, n)
  {
    SpliceFits(destCount, destOffset, n, width);
    SpliceFits(srcCount, srcOffset, n, width);
    var left := Chunk(Spliced(dest, d, src, s, m), destCount, width);
    var right := Spliced(Chunk(dest, destCount, width), destOffset, Chunk(src, srcCount, width), srcOffset, n);
    forall k | 0 <= k < destCount
      ensures left[k] == right[k]
    {
      SpliceSample(dest, destCount, destOffset, src, srcCount, srcOffset, n, width, d, s, m, k);
    }
  }

  method MemCpy(dest: array<Byte>, d: nat, src: array<Byte>, s: nat, n: nat)
    requires dest != src && d + n <= dest.Length && s + n <= src.Length
    modifies dest
    ensures dest[..] == Spliced(old(dest[..]), d, src[..], s, n)
  {
    forall i | 0 <= i < n {
      dest[d + i] := src[s + i];
    }
  }

  /** audioBufferCopy: copies `size` whole samples, skipping a negative count. */
  method Copy(dest: array<Byte>, destOffset: nat, src: array<Byte>, srcOffset: nat, size: int, width: nat,
              ghost destCount: nat, ghost srcCount: nat)
    requires dest != src
    requires dest.Length == destCount * width && src.Length == srcCount * width
    requires destOffset + Max(size, 0) <= destCount && srcOffset + Max(size, 0) <= srcCount
    modifies dest
    ensures Chunk(dest[..], destCount, width)
            == Spliced(old(Chunk(dest[..], destCount, width)), destOffset,
                       Chunk(src[..], srcCount, width), srcOffset, Max(size, 0))
  {
    if size >= 0 {
      var d, s, n := destOffset * width, srcOffset * width, size * width;
      ChunkSplice(dest[..], destCount, destOffset, src[..], srcCount, srcOffset, size, width, d, s, n);
      MemCpy(dest, d, src, s, n);
    }
  }

  /** Fills `dest` with `n` samples of `src` in two copies: from `from` to the end of the first
      `used` slots, then from slot 0. */
  method CopyWrapped(dest: array<Byte>, src: array<Byte>, from: nat, n: nat, used: nat, width: nat,
                     ghost srcCount: nat)
    requires dest != src
    requires dest.Length == n * width && src.Length == srcCount * width
    requires from < used <= srcCount && n - Min(n, used - from) <= srcCount
    modifies dest
    ensures var slots, prefix := Chunk(src[..], srcCount, width), Min(n, used - from);
            Chunk(dest[..], n, width) == slots[from..from + prefix] + slots[..n - prefix]
  {
    ghost var slots, before := Chunk(src[..], srcCount, width), Chunk(dest[..], n, width);
    var prefix := Min(n, used - from);
    TwoSplices(before, slots, from, prefix);
    Copy(dest, 0, src, from, prefix, width, n, srcCount);
    assert Chunk(dest[..], n, width) == Spliced(before, 0, slots, from, prefix);
    Copy(dest, prefix, src, 0, n - prefix, width, n, srcCount);
  }
}
