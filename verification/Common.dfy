/** Shared value types of the SGFX native backend model. */
module Common {
  datatype Option<+T> = None | Some(value: T)

  datatype Result<+T, +E> = Ok(value: T) | Err(error: E)

  newtype byte = x: int | 0 <= x < 256

  /** Largest value of the 64-bit `usize` and `u64` the source computes with. */
  const MAX_WORD: nat := 0xFFFF_FFFF_FFFF_FFFF

  function Min(a: int, b: int): int { if a < b then a else b }

  function Max(a: int, b: int): int { if a < b then b else a }

  /** A buffer read past its end yields zero, as every growth gap does. */
  function ByteAt(s: seq<byte>, i: nat): byte { if i < |s| then s[i] else 0 }

  /** The naive meaning of writing `data` at `start`: grow with zeros, then overwrite. */
  function Overwrite(base: seq<byte>, start: nat, data: seq<byte>): (r: seq<byte>)
    ensures |r| == Max(|base|, start + |data|)
    ensures forall i :: 0 <= i < |r| ==>
      r[i] == if start <= i < start + |data| then data[i - start] else ByteAt(base, i)
  {
    seq(Max(|base|, start + |data|), (i: int) requires 0 <= i =>
      if start <= i < start + |data| then data[i - start] else ByteAt(base, i))
  }

  /** `count` bytes from `start`, zero-extended. */
  function Slice(s: seq<byte>, start: nat, count: nat): (r: seq<byte>)
    ensures |r| == count
    ensures forall i :: 0 <= i < count ==> r[i] == ByteAt(s, start + i)
  {
    seq(count, (i: int) requires 0 <= i => ByteAt(s, start + i))
  }

  /** `copy_from_slice` into the middle of a buffer. */
  function CopyInto(bytes: seq<byte>, at: nat, source: seq<byte>): (r: seq<byte>)
    requires at + |source| <= |bytes|
    ensures |r| == |bytes|
    ensures forall i :: 0 <= i < |r| ==> r[i] == if at <= i < at + |source| then source[i - at] else bytes[i]
  {
    bytes[..at] + source + bytes[at + |source|..]
  }
}
