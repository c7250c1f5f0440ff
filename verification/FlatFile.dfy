/** A POSIX file as its bytes: positioned writes, positioned reads and zero filling. */
module FlatFile {
  newtype byte = x: int | 0 <= x < 256

  type Bytes = seq<byte>

  function Min(a: nat, b: nat): nat {
    if a <= b then a else b
  }

  function Max(a: nat, b: nat): nat {
    if a <= b then b else a
  }

  function Zeros(n: nat): Bytes {
    seq(n, _ => 0)
  }

  /** Byte i of a file that reads as zero past its end. */
  function ByteAt(f: Bytes, i: nat): byte {
    if i < |f| then f[i] else 0
  }

  /** Appends zeros until the buffer has the given length; a longer buffer is left alone. */
  function FillToSize(buf: Bytes, size: nat): (r: Bytes)
    ensures |r| == Max(|buf|, size) && buf <= r
    ensures forall i :: 0 <= i < |r| ==> r[i] == ByteAt(buf, i)
  {
    if |buf| < size then buf + Zeros(size - |buf|) else buf
  }

  /** pwrite: a gap before the offset is zero filled, an empty write changes nothing. */
  function WriteAt(f: Bytes, offset: nat, data: Bytes): Bytes {
    seq(if data == [] then |f| else Max(|f|, offset + |data|),
        i requires 0 <= i => if offset <= i < offset + |data| then data[i - offset] else ByteAt(f, i))
  }

  lemma WriteAtByte(f: Bytes, offset: nat, data: Bytes, i: nat)
    ensures ByteAt(WriteAt(f, offset, data), i) ==
            if offset <= i < offset + |data| then data[i - offset] else ByteAt(f, i)
  {
  }

  /** pread: the part of the requested range that exists. */
  function ReadAt(f: Bytes, offset: nat, size: nat): (r: Bytes)
    ensures |r| == Min(size, if offset < |f| then |f| - offset else 0)
    ensures forall i :: 0 <= i < |r| ==> r[i] == f[offset + i]
  {
    f[Min(offset, |f|)..Min(offset + size, |f|)]
  }

  /** Two adjacent writes have the effect of one write of their concatenation. */
  lemma WritesCoalesce(f: Bytes, offset: nat, a: Bytes, b: Bytes)
    ensures WriteAt(WriteAt(f, offset, a), offset + |a|, b) == WriteAt(f, offset, a + b)
  {
    if a == [] {
      assert a + b == b;
    } else if b == [] {
      assert a + b == a;
    }
  }
}
