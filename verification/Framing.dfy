/**
  Byte-level helpers of the binary formats: big-endian numbers, length-prefixed fields, text as
  bytes, and copying into a buffer.
*/
module Framing {
  import opened Common

  function Pow256(width: nat): nat {
    if width == 0 then 1 else 256 * Pow256(width - 1)
  }

  /** The `width` low bytes of `n`, most significant first. */
  function BigEndian(n: nat, width: nat): (b: Bytes)
    ensures |b| == width
  {
    if width == 0 then [] else BigEndian(n / 256, width - 1) + [n % 256]
  }

  function Number(b: Bytes): nat {
    if b == [] then 0 else Number(b[..|b| - 1]) * 256 + b[|b| - 1]
  }

  lemma {:induction false} NumberOfBigEndian(n: nat, width: nat)
    requires n < Pow256(width)
    ensures Number(BigEndian(n, width)) == n
  {
    if width > 0 {
      NumberOfBigEndian(n / 256, width - 1);
      assert BigEndian(n, width)[..width - 1] == BigEndian(n / 256, width - 1);
    }
  }

  lemma {:induction false} BigEndianOfNumber(b: Bytes)
    ensures Number(b) < Pow256(|b|)
    ensures BigEndian(Number(b), |b|) == b
  {
    if b != [] {
      BigEndianOfNumber(b[..|b| - 1]);
      assert b == b[..|b| - 1] + [b[|b| - 1]];
    }
  }

  lemma Widths()
    ensures Pow256(2) == 0x1_0000 && Pow256(4) == 0x1_0000_0000
  {
    assert Pow256(1) == 256 * Pow256(0);
    assert Pow256(3) == 256 * Pow256(2);
  }

  function Zeros(n: nat): (b: Bytes)
    ensures |b| == n
  {
    seq(n, _ => 0)
  }

  predicate Ascii(t: string) {
    forall k | 0 <= k < |t| :: t[k] < 256 as char
  }

  /** The bytes of a text; only of an ASCII text are they its own. */
  function BytesOf(t: string): (b: Bytes)
    ensures |b| == |t|
  {
    seq(|t|, k requires 0 <= k < |t| => if t[k] < 256 as char then t[k] as nat else 0)
  }

  function NulTerminated(t: string): (b: Bytes)
    ensures |b| == |t| + 1
  {
    BytesOf(t) + [0]
  }

  function TextOf(b: Bytes): (t: string)
    ensures |t| == |b|
  {
    seq(|b|, k requires 0 <= k < |b| => b[k] as char)
  }

  lemma TextOfBytes(t: string)
    requires Ascii(t)
    ensures TextOf(BytesOf(t)) == t
  {
  }

  lemma BytesOfText(b: Bytes)
    ensures Ascii(TextOf(b)) && BytesOf(TextOf(b)) == b
  {
  }

  // -------------------------------------------------------- length-prefixed fields

  const MAX_U32: nat := 0xFFFF_FFFF

  function Field(value: Bytes): Bytes {
    BigEndian(|value|, 4) + value
  }

  /** A length-prefixed field can be told from what follows it. */
  lemma FieldSplits(x: Bytes, xs: Bytes, y: Bytes, ys: Bytes)
    requires |x| <= MAX_U32 && |y| <= MAX_U32 && Field(x) + xs == Field(y) + ys
    ensures x == y && xs == ys
  {
    var a, b := Field(x) + xs, Field(y) + ys;
    assert a[..4] == BigEndian(|x|, 4) && b[..4] == BigEndian(|y|, 4);
    Widths();
    NumberOfBigEndian(|x|, 4);
    NumberOfBigEndian(|y|, 4);
    assert x == a[4..4 + |x|] && y == b[4..4 + |y|];
    assert xs == a[4 + |x|..] && ys == b[4 + |y|..];
  }

  // ------------------------------------------------------------------------ buffers

  /** `copy(buffer[at:], data)` where the data fits. */
  method CopyInto(buffer: array<Byte>, at: nat, data: Bytes)
    requires at + |data| <= buffer.Length
    modifies buffer
    ensures buffer[..at] == old(buffer[..at])
    ensures buffer[at..at + |data|] == data
    ensures buffer[at + |data|..] == old(buffer[at + |data|..])
  {
    for i := 0 to |data|
      invariant buffer[..at] == old(buffer[..at])
      invariant buffer[at..at + i] == data[..i]
      invariant buffer[at + i..] == old(buffer[at + i..])
    {
      ghost var rest := buffer[at + i..];
      buffer[at + i] := data[i];
      assert buffer[at..at + i + 1] == buffer[at..at + i] + [data[i]];
      assert buffer[at + i + 1..] == rest[1..];
      assert old(buffer[at + i + 1..]) == old(buffer[at + i..])[1..];
    }
    assert data[..|data|] == data;
  }

  /** Fills the buffer from `at` on, once everything before is in place. */
  method Extend(buffer: array<Byte>, at: nat, data: Bytes, ghost before: Bytes) returns (next: nat)
    requires at + |data| <= buffer.Length && buffer[..at] == before
    modifies buffer
    ensures next == at + |data| && buffer[..next] == before + data
    ensures buffer[next..] == old(buffer[next..])
  {
    CopyInto(buffer, at, data);
    next := at + |data|;
    assert buffer[..next] == buffer[..at] + buffer[at..next];
  }
}
