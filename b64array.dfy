/**
 * `_b64toArray`: the bytes of a base64-encoded numeric array, as the gateway
 * receives them in JSON, turned back into numbers according to the array's
 * Java type code ('[B' bytes, '[S' shorts, '[I' ints, '[J' longs, '[F' and
 * '[D' floating point), read through a `DataView` in little-endian order
 * unless told otherwise.
 *
 * The base64 step itself (`atob`) is outside the model: the input is the
 * character codes it produces, each below 256.
 */
module B64Array {
  import opened Wrappers
  import opened Bytes

  /**
   * What `_b64toArray` yields: an array of integers, `undefined` for a type
   * code it does not know, an array of floating-point numbers (only their
   * count is modelled), or an exception: a `RangeError` when a read runs
   * past the end of the bytes, a `TypeError` when the method it calls does
   * not exist.
   */
  datatype Decoded = Values(values: seq<int>) | Undefined | Floats(count: nat) | RangeError | TypeError

  function Pow256(n: nat): (r: nat)
    ensures r >= 1
  {
    if n == 0 then 1 else 256 * Pow256(n - 1)
  }

  /** The unsigned number whose little-endian bytes are `bs`. */
  function LittleEndian(bs: seq<Byte>): (r: nat)
    ensures r < Pow256(|bs|)
  {
    if bs == [] then 0
    else
      var rest := LittleEndian(bs[1..]);
      assert rest <= Pow256(|bs| - 1) - 1;
      bs[0] + 256 * rest
  }

  function Reverse(bs: seq<Byte>): (r: seq<Byte>)
    ensures |r| == |bs|
    ensures forall i :: 0 <= i < |bs| ==> r[i] == bs[|bs| - 1 - i]
  {
    if bs == [] then [] else Reverse(bs[1..]) + [bs[0]]
  }

  /** `DataView.getUintN`: the unsigned number stored in `bs`, in the given byte order. */
  function Unsigned(bs: seq<Byte>, littleEndian: bool): (r: nat)
    ensures r < Pow256(|bs|)
  {
    if littleEndian then LittleEndian(bs) else LittleEndian(Reverse(bs))
  }

  /** Two's complement reading of an `n`-byte unsigned number. */
  function Signed(u: int, n: nat): (r: int)
    requires n >= 1 && 0 <= u < Pow256(n)
    ensures -128 * Pow256(n - 1) <= r < 128 * Pow256(n - 1)
    ensures r >= 0 ==> r == u
    ensures r < 0 ==> r == u - Pow256(n)
  {
    if u >= 128 * Pow256(n - 1) then u - Pow256(n) else u
  }

  /** One element read from the bytes `bs` of its width: signed (`getIntN`) or unsigned (`getUint8`). */
  function Element(bs: seq<Byte>, littleEndian: bool, signed: bool): int
    requires |bs| >= 1
  {
    if signed then Signed(Unsigned(bs, littleEndian), |bs|) else Unsigned(bs, littleEndian)
  }

  /**
   * Reading `bytes` as consecutive elements of `width` bytes: None when the
   * last read would run past the end (a RangeError in the source).
   */
  function Decode(bytes: seq<Byte>, width: nat, littleEndian: bool, signed: bool): (r: Option<seq<int>>)
    requires width >= 1
    decreases |bytes|
  {
    if bytes == [] then Some([])
    else if |bytes| < width then None
    else
      match Decode(bytes[width..], width, littleEndian, signed)
      case None => None
      case Some(rest) => Some([Element(bytes[..width], littleEndian, signed)] + rest)
  }

  /** The widths of the integer types the source reads: byte, short, int and long. */
  predicate IsWidth(w: nat)
  {
    w == 1 || w == 2 || w == 4 || w == 8
  }

  /**
   * The elements are read until the bytes run out; the read fails exactly
   * when the length is not a multiple of the width, and otherwise yields
   * one element per `width` bytes.
   */
  lemma {:induction false} DecodeSucceedsIff(bytes: seq<Byte>, width: nat, littleEndian: bool, signed: bool)
    requires IsWidth(width)
    ensures Decode(bytes, width, littleEndian, signed).Some? <==> |bytes| % width == 0
    ensures Decode(bytes, width, littleEndian, signed).Some? ==>
      |Decode(bytes, width, littleEndian, signed).value| == |bytes| / width
    decreases |bytes|
  {
    if bytes != [] && |bytes| >= width {
      DecodeSucceedsIff(bytes[width..], width, littleEndian, signed);
      ModMinusWidth(|bytes|, width);
    }
  }

  lemma ModMinusWidth(n: nat, w: nat)
    requires IsWidth(w) && w <= n
    ensures (n - w) % w == n % w && (n - w) / w == n / w - 1
  {
    if w == 1 {
      assert (n - 1) % 1 == n % 1 && (n - 1) / 1 == n / 1 - 1;
    } else if w == 2 {
      assert (n - 2) % 2 == n % 2 && (n - 2) / 2 == n / 2 - 1;
    } else if w == 4 {
      assert (n - 4) % 4 == n % 4 && (n - 4) / 4 == n / 4 - 1;
    } else {
      assert w == 8;
      assert (n - 8) % 8 == n % 8 && (n - 8) / 8 == n / 8 - 1;
    }
  }

  /** The Java type codes the decoder reads as integers, with their widths and signedness. */
  function IntWidth(dtype: string): (r: Option<(nat, bool)>)
    ensures r.Some? ==> r.value.0 >= 1
  {
    if dtype == "[B" then Some((1, false))
    else if dtype == "[S" then Some((2, true))
    else if dtype == "[I" then Some((4, true))
    else if dtype == "[J" then Some((8, true))
    else None
  }

  /** Floating-point type codes and their widths. */
  function FloatWidth(dtype: string): nat
  {
    if dtype == "[F" then 4 else if dtype == "[D" then 8 else 0
  }

  /**
   * The outcome `_b64toArray` is meant to have for the bytes `bytes`
   * (with '[J' read as 64-bit signed integers).
   */
  function Expected(bytes: seq<Byte>, dtype: string, littleEndian: bool): (r: Decoded)
  {
    if IntWidth(dtype).Some? then
      var (w, signed) := IntWidth(dtype).value;
      match Decode(bytes, w, littleEndian, signed)
      case None => RangeError
      case Some(vs) => Values(vs)
    else if FloatWidth(dtype) > 0 then
      if |bytes| % FloatWidth(dtype) == 0 then Floats(|bytes| / FloatWidth(dtype)) else RangeError
    else Undefined
  }

  /**
   * The '[J' case as the source writes it: it calls `DataView.getInt64`, which
   * does not exist, so any non-empty long array throws a TypeError.
   */
  function LongArrayAsWritten(bytes: seq<Byte>): (r: Decoded)
    ensures r == TypeError <==> |bytes| > 0
  {
    if |bytes| == 0 then Values([]) else TypeError
  }

  /** Zero bytes read as 0. */
  lemma {:induction false} LittleEndianZeros(bs: seq<Byte>)
    requires forall i :: 0 <= i < |bs| ==> bs[i] == 0
    ensures LittleEndian(bs) == 0
    decreases |bs|
  {
    if bs != [] {
      LittleEndianZeros(bs[1..]);
    }
  }

  /** Eight zero bytes encode the long 0, which the source fails to decode. */
  lemma LongArrayAsWrittenFails()
    ensures LongArrayAsWritten([0, 0, 0, 0, 0, 0, 0, 0]) == TypeError
    ensures Expected([0, 0, 0, 0, 0, 0, 0, 0], "[J", true) == Values([0])
  {
    var bs: seq<Byte> := [0, 0, 0, 0, 0, 0, 0, 0];
    assert IntWidth("[J") == Some((8, true));
    LittleEndianZeros(bs);
    assert Element(bs, true, true) == 0 by {
      assert Unsigned(bs, true) == 0;
    }
    assert bs[..8] == bs && bs[8..] == [];
    assert Decode(bs, 8, true, true) == Some([Element(bs, true, true)] + []);
  }

  /** The bytes that `Element` reads back as `v`: the encoder's side. */
  function ElementBytes(v: int, width: nat, littleEndian: bool): (r: seq<Byte>)
    ensures |r| == width
  {
    var u := if v < 0 then v + Pow256(width) else v;
    var le := LittleEndianBytes(if u >= 0 then u else 0, width);
    if littleEndian then le else Reverse(le)
  }

  function LittleEndianBytes(u: nat, n: nat): (r: seq<Byte>)
    ensures |r| == n
  {
    if n == 0 then [] else [u % 256] + LittleEndianBytes(u / 256, n - 1)
  }

  /** The encoding of a whole array: its elements' bytes, one after the other. */
  function Encode(vs: seq<int>, width: nat, littleEndian: bool): seq<Byte>
  {
    if vs == [] then [] else ElementBytes(vs[0], width, littleEndian) + Encode(vs[1..], width, littleEndian)
  }

  lemma {:induction false} LittleEndianOfBytes(u: nat, n: nat)
    requires u < Pow256(n)
    ensures LittleEndian(LittleEndianBytes(u, n)) == u
  {
    if n > 0 {
      var bs := LittleEndianBytes(u, n);
      assert bs[1..] == LittleEndianBytes(u / 256, n - 1);
      LittleEndianOfBytes(u / 256, n - 1);
    }
  }

  lemma ReverseReverse(bs: seq<Byte>)
    ensures Reverse(Reverse(bs)) == bs
  {
  }

  /** An element in range reads back from its own bytes. */
  lemma ElementOfBytes(v: int, width: nat, littleEndian: bool, signed: bool)
    requires width >= 1
    requires signed ==> -128 * Pow256(width - 1) <= v < 128 * Pow256(width - 1)
    requires !signed ==> 0 <= v < Pow256(width)
    ensures Element(ElementBytes(v, width, littleEndian), littleEndian, signed) == v
  {
    var u := if v < 0 then v + Pow256(width) else v;
    LittleEndianOfBytes(u, width);
    ReverseReverse(LittleEndianBytes(u, width));
  }

  /** Which values an element of `width` bytes can hold. */
  predicate InRange(v: int, width: nat, signed: bool)
    requires width >= 1
  {
    if signed then -128 * Pow256(width - 1) <= v < 128 * Pow256(width - 1) else 0 <= v < Pow256(width)
  }

  /** Decoding inverts encoding for arrays whose elements fit their width. */
  lemma {:induction false} DecodeEncode(vs: seq<int>, width: nat, littleEndian: bool, signed: bool)
    requires width >= 1
    requires forall i :: 0 <= i < |vs| ==> InRange(vs[i], width, signed)
    ensures Decode(Encode(vs, width, littleEndian), width, littleEndian, signed) == Some(vs)
  {
    if vs != [] {
      var head := ElementBytes(vs[0], width, littleEndian);
      var bytes := Encode(vs, width, littleEndian);
      assert bytes[..width] == head;
      assert bytes[width..] == Encode(vs[1..], width, littleEndian);
      DecodeEncode(vs[1..], width, littleEndian, signed);
      ElementOfBytes(vs[0], width, littleEndian, signed);
      assert [vs[0]] + vs[1..] == vs;
    }
  }

  /**
   * Every read value fits the type: bytes in 0..255, shorts in
   * -32768..32767, ints in -2^31..2^31-1, longs in -2^63..2^63-1.
   */
  lemma {:induction false} DecodedInRange(bytes: seq<Byte>, width: nat, littleEndian: bool, signed: bool)
    requires width >= 1
    ensures var d := Decode(bytes, width, littleEndian, signed);
      d.Some? ==> forall i :: 0 <= i < |d.value| ==> InRange(d.value[i], width, signed)
    decreases |bytes|
  {
    if bytes != [] && |bytes| >= width {
      DecodedInRange(bytes[width..], width, littleEndian, signed);
    }
  }

  /** Reads the elements of `width` bytes from `view` front to back, as the source's `for` loops do. */
  method ReadAll(view: array<Byte>, width: nat, littleEndian: bool, signed: bool) returns (r: Decoded)
    requires width >= 1
    ensures r == match Decode(view[..], width, littleEndian, signed)
                 case None => RangeError
                 case Some(vs) => Values(vs)
  {
    var rv: seq<int> := [];
    var i := 0;
    assert view[i..] == view[..];
    while i < view.Length
      invariant 0 <= i <= view.Length
      invariant Decode(view[..], width, littleEndian, signed).Some? <==> Decode(view[i..], width, littleEndian, signed).Some?
      invariant Decode(view[i..], width, littleEndian, signed).Some? ==>
        Decode(view[..], width, littleEndian, signed).value == rv + Decode(view[i..], width, littleEndian, signed).value
      decreases view.Length - i
    {
      if i + width > view.Length {
        return RangeError;
      }
      assert view[i..][width..] == view[i + width..];
      assert view[i..][..width] == view[i..i + width];
      ghost var rest := Decode(view[i + width..], width, littleEndian, signed);
      if rest.Some? {
        assert rv + ([Element(view[i..i + width], littleEndian, signed)] + rest.value)
            == (rv + [Element(view[i..i + width], littleEndian, signed)]) + rest.value;
      }
      rv := rv + [Element(view[i..i + width], littleEndian, signed)];
      i := i + width;
    }
    assert view[i..] == [];
    return Values(rv);
  }

  /**
   * `_b64toArray` on the character codes `s` that `atob` produced: copies
   * them into a byte buffer, then reads the buffer according to `dtype`.
   */
  method B64ToArray(s: seq<Byte>, dtype: string, littleEndian: bool) returns (r: Decoded)
    ensures r == Expected(s, dtype, littleEndian)
  {
    var bytes := new Byte[|s|];
    var i := 0;
    while i < |s|
      invariant 0 <= i <= |s|
      invariant bytes[..i] == s[..i]
    {
      bytes[i] := s[i];
      i := i + 1;
    }
    assert bytes[..] == s;
    var iw := IntWidth(dtype);
    if iw.Some? {
      r := ReadAll(bytes, iw.value.0, littleEndian, iw.value.1);
    } else if FloatWidth(dtype) > 0 {
      var w := FloatWidth(dtype);
      if |s| % w == 0 {
        r := Floats(|s| / w);
      } else {
        r := RangeError;
      }
    } else {
      r := Undefined;
    }
  }
}
