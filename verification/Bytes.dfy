/** Bytes, fixed-width words and the few facts about sequences the other modules share. */
module Bytes {
  newtype byte = b: int | 0 <= b < 0x100
  type u16 = x: int | 0 <= x < 0x1_0000
  type u32 = x: int | 0 <= x < 0x1_0000_0000
  type bytes = seq<byte>

  /** Go's conversion of a length or a 64-bit value to uint32. */
  function Wrap32(x: int): u32 { x % 0x1_0000_0000 }

  /** Little-endian words, as encoding/binary writes and reads them. */
  function Put16(v: u16): bytes { [(v % 256) as byte, (v / 256) as byte] }

  function Put32(v: u32): bytes {
    [(v % 256) as byte, (v / 256 % 256) as byte, (v / 256 / 256 % 256) as byte, (v / 256 / 256 / 256) as byte]
  }

  function U16(b: bytes, i: nat): u16
    requires i + 2 <= |b|
  {
    b[i] as int + 0x100 * (b[i + 1] as int)
  }

  function U32(b: bytes, i: nat): u32
    requires i + 4 <= |b|
  {
    b[i] as int + 0x100 * (b[i + 1] as int) + 0x1_0000 * (b[i + 2] as int) + 0x100_0000 * (b[i + 3] as int)
  }

  lemma Word32(v: u32)
    ensures U32(Put32(v), 0) == v
  {
  }

  /** A word read where Put32 wrote it is the word written. */
  lemma ReadBack32(b: bytes, i: nat, v: u32)
    requires i + 4 <= |b| && b[i..i + 4] == Put32(v)
    ensures U32(b, i) == v
  {
    Word32(v);
    var w := b[i..i + 4];
    assert w[0] == b[i] && w[1] == b[i + 1] && w[2] == b[i + 2] && w[3] == b[i + 3];
  }

  lemma ReadBack16(b: bytes, i: nat, v: u16)
    requires i + 2 <= |b| && b[i..i + 2] == Put16(v)
    ensures U16(b, i) == v
  {
    var w := b[i..i + 2];
    assert w[0] == b[i] && w[1] == b[i + 1];
  }

  function Min(a: int, b: int): int { if a < b then a else b }

  function Max(a: int, b: int): int { if a < b then b else a }

  /** n zero bytes. */
  function Zeros(n: nat): (z: bytes)
    ensures |z| == n && forall i :: 0 <= i < n ==> z[i] == 0
  {
    seq(n, i => 0)
  }

  function Concat<T>(parts: seq<seq<T>>): seq<T> {
    if parts == [] then [] else parts[0] + Concat(parts[1..])
  }

  lemma {:induction false} ConcatAppend<T>(a: seq<seq<T>>, b: seq<seq<T>>)
    ensures Concat(a + b) == Concat(a) + Concat(b)
  {
    if a == [] {
      assert a + b == b;
    } else {
      ConcatAppend(a[1..], b);
      assert (a + b)[1..] == a[1..] + b;
    }
  }

  lemma ConcatSnoc<T>(a: seq<seq<T>>, x: seq<T>)
    ensures Concat(a + [x]) == Concat(a) + x
  {
    ConcatAppend(a, [x]);
    assert Concat([x]) == x + Concat([]);
  }

  /** Dropping parts from the end leaves a prefix. */
  lemma ConcatPrefix<T>(a: seq<seq<T>>, k: nat)
    requires k <= |a|
    ensures Concat(a[..k]) <= Concat(a)
  {
    ConcatAppend(a[..k], a[k..]);
    assert a[..k] + a[k..] == a;
  }

  /** b with src written at off. */
  function Splice(b: bytes, off: nat, src: bytes): bytes
    requires off + |src| <= |b|
  {
    b[..off] + src + b[off + |src|..]
  }

  /** Writes a word into a buffer in place. */
  method PutUint32(b: array<byte>, off: nat, v: u32)
    requires off + 4 <= b.Length
    modifies b
    ensures b[..] == Splice(old(b[..]), off, Put32(v))
  {
    b[off] := (v % 256) as byte;
    b[off + 1] := (v / 256 % 256) as byte;
    b[off + 2] := (v / 256 / 256 % 256) as byte;
    b[off + 3] := (v / 256 / 256 / 256) as byte;
  }

  method PutUint16(b: array<byte>, off: nat, v: u16)
    requires off + 2 <= b.Length
    modifies b
    ensures b[..] == Splice(old(b[..]), off, Put16(v))
  {
    b[off] := (v % 256) as byte;
    b[off + 1] := (v / 256) as byte;
  }

  /** Go's copy into b[off:], for a source that fits. */
  method CopyInto(b: array<byte>, off: nat, src: bytes)
    requires off + |src| <= b.Length
    modifies b
    ensures b[..] == Splice(old(b[..]), off, src)
  {
    forall i | 0 <= i < |src| {
      b[off + i] := src[i];
    }
  }
}

/** Failure-compatible results. */
module Wrappers {
  datatype Option<+T> = None | Some(value: T)

  datatype Result<+T, +E> = Ok(value: T) | Err(error: E)
}
