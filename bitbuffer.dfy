/**
 * The baseband sample's bit buffer: a fixed number of bytes read and written
 * one bit at a time, least-significant bit of each byte first, with a single
 * read/write position. Java `byte`s are taken as `bv8`: only their bits
 * matter to every operation here. A thrown `UnetException` is an error
 * result carrying its message, with nothing changed.
 */
module BitBuffers {
  import opened Wrappers

  const INVALID_BIT := "Invalid bit (must be 0 or 1)"
  const OVERFLOW := "Buffer overflow"
  const INCOMPLETE_BYTE := "Buffer contains incomplete byte"

  /** `0x01 << p`: the mask of bit `p` of a byte, tabulated. */
  function Mask(p: nat): bv8
    requires p < 8
  {
    [0x01, 0x02, 0x04, 0x08, 0x10, 0x20, 0x40, 0x80][p]
  }

  /** The table is the shift it stands for. */
  lemma MaskIsShift(p: nat)
    requires p < 8
    ensures Mask(p) == 1 << p
  {
  }

  /** Bit `k` of a byte string, counting from the least-significant bit of the first byte. */
  function BitAt(bytes: seq<bv8>, k: nat): (r: int)
    requires k < 8 * |bytes|
    ensures r == 0 || r == 1
  {
    if bytes[k / 8] & Mask(k % 8) == 0 then 0 else 1
  }

  /** The byte `b` with bit `p` cleared (for a 0) or set (for any other bit). */
  function SetBit(b: bv8, p: nat, bit: int): bv8
    requires p < 8
  {
    if bit == 0 then b & (0xff ^ Mask(p)) else b | Mask(p)
  }

  /** The byte string with bit `k` cleared (for a 0) or set (for any other bit). */
  function WithBit(bytes: seq<bv8>, k: nat, bit: int): (r: seq<bv8>)
    requires k < 8 * |bytes|
  {
    bytes[k / 8 := SetBit(bytes[k / 8], k % 8, bit)]
  }

  /** Clearing or setting one bit of a byte leaves its other seven bits as they were. */
  lemma MaskedBits(b: bv8, p: nat, q: nat)
    requires p < 8 && q < 8
    ensures (b & (0xff ^ Mask(p))) & Mask(q) == 0 <==> p == q || b & Mask(q) == 0
    ensures (b | Mask(p)) & Mask(q) == 0 <==> p != q && b & Mask(q) == 0
  {
  }

  /** Writing a bit and reading it back gives that bit; every other bit is unchanged. */
  lemma WithBitAt(bytes: seq<bv8>, k: nat, bit: int, j: nat)
    requires k < 8 * |bytes| && j < 8 * |bytes|
    requires bit == 0 || bit == 1
    ensures |WithBit(bytes, k, bit)| == |bytes|
    ensures BitAt(WithBit(bytes, k, bit), j) == if j == k then bit else BitAt(bytes, j)
  {
    var r := WithBit(bytes, k, bit);
    if j / 8 == k / 8 {
      assert (j == k) == (j % 8 == k % 8);
      assert r[j / 8] == SetBit(bytes[j / 8], k % 8, bit);
      MaskedBits(bytes[k / 8], k % 8, j % 8);
    } else {
      assert r[j / 8] == bytes[j / 8];
    }
  }

  /** The bits `bs` written one after another from bit `k` on. */
  function WriteAll(bytes: seq<bv8>, k: nat, bs: seq<int>): (r: seq<bv8>)
    requires k + |bs| <= 8 * |bytes|
    ensures |r| == |bytes|
    decreases |bs|
  {
    if bs == [] then bytes else WriteAll(WithBit(bytes, k, bs[0]), k + 1, bs[1..])
  }

  /** Writing one more bit after `bs` is one more `write(bit)` call. */
  lemma {:induction false} WriteAllSnoc(bytes: seq<bv8>, k: nat, bs: seq<int>, b: int)
    requires k + |bs| + 1 <= 8 * |bytes|
    ensures WriteAll(bytes, k, bs + [b]) == WithBit(WriteAll(bytes, k, bs), k + |bs|, b)
    decreases |bs|
  {
    if bs == [] {
      assert [b][1..] == [];
    } else {
      assert (bs + [b])[1..] == bs[1..] + [b];
      WriteAllSnoc(WithBit(bytes, k, bs[0]), k + 1, bs[1..], b);
    }
  }

  /**
   * Round trip: after writing the bits `bs` from bit `k` on, reading from
   * bit `k` on gives `bs` back, and the bits outside the written range are
   * the ones that were there before.
   */
  lemma {:induction false} WriteAllReads(bytes: seq<bv8>, k: nat, bs: seq<int>, j: nat)
    requires k + |bs| <= 8 * |bytes| && j < 8 * |bytes|
    requires forall i :: 0 <= i < |bs| ==> bs[i] == 0 || bs[i] == 1
    ensures k <= j < k + |bs| ==> BitAt(WriteAll(bytes, k, bs), j) == bs[j - k]
    ensures !(k <= j < k + |bs|) ==> BitAt(WriteAll(bytes, k, bs), j) == BitAt(bytes, j)
    decreases |bs|
  {
    if bs != [] {
      var next := WithBit(bytes, k, bs[0]);
      WithBitAt(bytes, k, bs[0], j);
      WriteAllReads(next, k + 1, bs[1..], j);
      if k + 1 <= j < k + |bs| {
        assert bs[1..][j - (k + 1)] == bs[j - k];
      }
    }
  }

  /** Bytes copied into the buffer at byte `n` read back, bit by bit, as the copied bytes. */
  lemma SpliceBits(pre: seq<bv8>, data: seq<bv8>, post: seq<bv8>, i: nat)
    requires i < 8 * |data|
    ensures BitAt(pre + data + post, 8 * |pre| + i) == BitAt(data, i)
  {
    var k := 8 * |pre| + i;
    assert k / 8 == |pre| + i / 8 && k % 8 == i % 8;
  }

  /** A bit index splits into its byte and its bit within the byte. */
  lemma PosSplit(bytePos: nat, bitPos: nat)
    requires bitPos < 8
    ensures (8 * bytePos + bitPos) / 8 == bytePos && (8 * bytePos + bitPos) % 8 == bitPos
  {
  }

  /** Bit `bitPos` of byte `bytePos` is bit `8 * bytePos + bitPos` of the string. */
  lemma WithBitInByte(bytes: seq<bv8>, bytePos: nat, bitPos: nat, bit: int)
    requires bytePos < |bytes| && bitPos < 8
    ensures WithBit(bytes, 8 * bytePos + bitPos, bit)
         == bytes[bytePos := SetBit(bytes[bytePos], bitPos, bit)]
  {
    PosSplit(bytePos, bitPos);
  }

  class BitBuffer {
    /** The bytes; the array is never replaced, so its size is fixed. */
    const buf: array<bv8>
    var bytePos: int
    var bitPos: int

    /** The position lies within the buffer, at most just past its last bit. */
    ghost predicate Valid()
      reads this
    {
      0 <= bitPos < 8 && 0 <= bytePos <= buf.Length && (bytePos == buf.Length ==> bitPos == 0)
    }

    /** The read/write position as a bit index. */
    function Pos(): int
      reads this
    {
      8 * bytePos + bitPos
    }

    /** `new BitBuffer(bytes)`: a zeroed buffer of `bytes` bytes, positioned at its start. */
    constructor(bytes: nat)
      ensures Valid() && fresh(buf)
      ensures buf.Length == bytes && buf[..] == seq(bytes, _ => 0 as bv8)
      ensures Pos() == 0
    {
      buf := new bv8[bytes](_ => 0);
      bytePos := 0;
      bitPos := 0;
    }

    /** `getSizeInBytes`. */
    function SizeInBytes(): (r: nat)
      reads this
      ensures r == buf.Length
    {
      buf.Length
    }

    /** `getSizeInBits`: eight bits to a byte. */
    function SizeInBits(): (r: nat)
      reads this
      ensures r == 8 * SizeInBytes()
    {
      buf.Length * 8
    }

    /** `getBytes`: the buffer itself, not a copy. */
    function GetBytes(): (r: array<bv8>)
      reads this
      ensures r == buf && r.Length == SizeInBytes()
    {
      buf
    }

    /** `eos`: the position has reached the end of the buffer. */
    function Eos(): (r: bool)
      requires Valid()
      reads this
      ensures r <==> Pos() == SizeInBits()
      ensures !r ==> Pos() < SizeInBits()
    {
      bytePos >= buf.Length
    }

    /** `reset`: back to the first bit, the contents untouched. */
    method Reset()
      modifies this
      ensures Valid() && Pos() == 0
      ensures bytePos == 0 && bitPos == 0
    {
      bytePos := 0;
      bitPos := 0;
    }

    /** Lines 66-67 of `write(int)`: clears or sets bit `bitPos` of the current byte. */
    method PutBit(bit: int)
      requires Valid() && !Eos()
      modifies buf
      ensures buf[..] == WithBit(old(buf[..]), Pos(), bit)
    {
      ghost var before := buf[..];
      var i, p := bytePos, bitPos;
      var b := buf[i];
      var nb := SetBit(b, p, bit);
      buf[i] := nb;
      assert buf[..] == before[i := nb];
      WithBitInByte(before, i, p, bit);
    }

    /** Moves one bit on, to the next byte after bit 7. */
    method Advance()
      requires Valid() && !Eos()
      modifies this
      ensures Valid() && Pos() == old(Pos()) + 1
    {
      bitPos := bitPos + 1;
      if bitPos > 7 {
        bitPos := 0;
        bytePos := bytePos + 1;
      }
    }

    /**
     * `write(int)`: rejects a bit other than 0 or 1, then a full buffer,
     * before touching anything; otherwise writes the bit at the position,
     * changing no other bit, and advances one bit.
     */
    method Write(bit: int) returns (err: Option<string>)
      requires Valid()
      modifies this, buf
      ensures Valid()
      ensures !(bit == 0 || bit == 1) ==> err == Some(INVALID_BIT)
      ensures (bit == 0 || bit == 1) && old(Eos()) ==> err == Some(OVERFLOW)
      ensures err.Some? ==> unchanged(this, buf)
      ensures (bit == 0 || bit == 1) && !old(Eos()) ==>
        && err.None?
        && buf[..] == WithBit(old(buf[..]), old(Pos()), bit)
        && BitAt(buf[..], old(Pos())) == bit
        && Pos() == old(Pos()) + 1
    {
      if bit < 0 || bit > 1 {
        return Some(INVALID_BIT);
      }
      if bytePos >= buf.Length {
        return Some(OVERFLOW);
      }
      ghost var before := buf[..];
      PutBit(bit);
      WithBitAt(before, Pos(), bit, Pos());
      Advance();
      err := None;
    }

    /**
     * `write(byte[])`: rejects a pending partial byte, then data that would
     * run past the end; otherwise copies the data at the current byte (as
     * `System.arraycopy` does, even from the buffer itself) and advances
     * past it.
     */
    method WriteBytes(data: array<bv8>) returns (err: Option<string>)
      requires Valid()
      modifies this, buf
      ensures Valid()
      ensures old(bitPos) > 0 ==> err == Some(INCOMPLETE_BYTE)
      ensures old(bitPos) == 0 && old(bytePos) + data.Length > buf.Length ==> err == Some(OVERFLOW)
      ensures err.Some? ==> unchanged(this, buf)
      ensures old(bitPos) == 0 && old(bytePos) + data.Length <= buf.Length ==>
        && err.None?
        && buf[..] == old(buf[..bytePos]) + old(data[..]) + old(buf[bytePos + data.Length..])
        && bytePos == old(bytePos) + data.Length && bitPos == 0
    {
      if bitPos > 0 {
        return Some(INCOMPLETE_BYTE);
      }
      if bytePos + data.Length > buf.Length {
        return Some(OVERFLOW);
      }
      var d := data[..];
      ghost var before := buf[..];
      forall i | 0 <= i < |d| {
        buf[bytePos + i] := d[i];
      }
      assert buf[..] == before[..bytePos] + d + before[bytePos + |d|..];
      bytePos := bytePos + |d|;
      bitPos := 0;
      err := None;
    }

    /**
     * `read`: -1 at the end of the buffer, the position unmoved; otherwise
     * the bit at the position, and the position advances one bit.
     */
    method Read() returns (b: int)
      requires Valid()
      modifies this
      ensures Valid()
      ensures old(Eos()) ==> b == -1 && bytePos == old(bytePos) && bitPos == old(bitPos)
      ensures !old(Eos()) ==> b == BitAt(buf[..], old(Pos())) && Pos() == old(Pos()) + 1
    {
      if bytePos >= buf.Length {
        return -1;
      }
      ghost var k := Pos();
      PosSplit(bytePos, bitPos);
      var m := buf[bytePos] & Mask(bitPos);
      Advance();
      b := if m != 0 then 1 else 0;
    }
  }
}
