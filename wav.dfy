/**
 * The .WAV file routines of the C samples: 16- and 32-bit little-endian
 * integers, the canonical 44-byte RIFF WAVE header of a PCM file ("RIFF",
 * the 'fmt ' chunk, the 'data' chunk), and integer sample data. A file is
 * its bytes; reading goes through a `Reader` (the `FILE*` position and its
 * end-of-file flag, `getc` returning -1 past the end) and writing through a
 * `Writer` that appends.
 */
module Wav {
  import opened Wrappers
  import opened Bytes
  import opened CDivision
  import JavaText

  /** C's conversion of an integer to `short`: two's complement wrap-around to 16 bits. */
  function ShortOf(x: int): (r: int)
    ensures -0x8000 <= r < 0x8000
    ensures -0x8000 <= x < 0x8000 ==> r == x
  {
    (x + 0x8000) % 0x1_0000 - 0x8000
  }

  predicate IsShort(x: int) { -0x8000 <= x < 0x8000 }
  predicate IsInt(x: int) { -0x8000_0000 <= x < 0x8000_0000 }

  /** `(char)c` on a platform whose `char` is signed. */
  function SignedChar(c: Byte): int
  {
    if c >= 0x80 then c - 0x100 else c
  }

  /** `wav_write_word`: the low byte, then the high byte. */
  function WordBytes(w: int): seq<Byte>
  {
    [w % 0x100, (w / 0x100) % 0x100]
  }

  /**
   * `wav_write_long`: four bytes, least significant first; byte `k` is
   * `(l >> 8k) & 0xff`, an arithmetic shift being a floor division.
   */
  function LongBytes(l: int): seq<Byte>
  {
    [l % 0x100, (l / 0x100) % 0x100, (l / 0x1_0000) % 0x100, (l / 0x100_0000) % 0x100]
  }

  /**
   * `wav_read_word` at byte `i`: the OR of the two `getc` results, the
   * second shifted by 8, as a `short`. When the file ends first, the -1 of
   * `getc` sets every bit from that byte up.
   */
  function WordAt(data: seq<Byte>, i: nat): (w: int)
    ensures IsShort(w)
  {
    if i >= |data| then -1
    else if i + 1 >= |data| then data[i] - 0x100
    else ShortOf(data[i] as int + 0x100 * data[i + 1] as int)
  }

  /** `wav_read_long` at byte `i`, with the same treatment of the end of the file. */
  function LongAt(data: seq<Byte>, i: nat): (l: int)
    ensures IsInt(l)
  {
    if i >= |data| then -1
    else if i + 1 >= |data| then data[i] - 0x100
    else if i + 2 >= |data| then data[i] as int + 0x100 * data[i + 1] as int - 0x1_0000
    else if i + 3 >= |data| then data[i] as int + 0x100 * data[i + 1] as int + 0x1_0000 * data[i + 2] as int - 0x100_0000
    else JavaText.IntOf(data[i] as int + 0x100 * data[i + 1] as int + 0x1_0000 * data[i + 2] as int + 0x100_0000 * data[i + 3] as int)
  }

  /** Reading a written 16-bit value gives it back. */
  lemma WordRoundTrip(w: int, rest: seq<Byte>)
    requires IsShort(w)
    ensures WordAt(WordBytes(w) + rest, 0) == w
  {
    var b := WordBytes(w) + rest;
    var q1 := w / 0x100;
    assert w == w % 0x100 + 0x100 * q1;
    assert q1 == q1 % 0x100 + 0x100 * (q1 / 0x100);
    assert b[0] as int + 0x100 * b[1] as int == w - 0x1_0000 * (q1 / 0x100);
  }

  /** Shifting right by 8 once more is one floor division by 256 more. */
  lemma ShiftTwice(a: int, m: int)
    requires m == 0x100 || m == 0x1_0000
    ensures (a / m) / 0x100 == a / (m * 0x100)
  {
    var q, r := a / m, a % m;
    var q2, r2 := q / 0x100, q % 0x100;
    assert a == m * q + r && q == 0x100 * q2 + r2;
    if m == 0x100 {
      DivUnique(a, 0x1_0000, q2, 0x100 * r2 + r);
    } else {
      DivUnique(a, 0x100_0000, q2, 0x1_0000 * r2 + r);
    }
  }

  /** Reading a written 32-bit value gives it back. */
  lemma LongRoundTrip(l: int, rest: seq<Byte>)
    requires IsInt(l)
    ensures LongAt(LongBytes(l) + rest, 0) == l
  {
    var b := LongBytes(l) + rest;
    ShiftTwice(l, 0x100);
    ShiftTwice(l, 0x1_0000);
    var q1 := l / 0x100;
    var q2 := l / 0x1_0000;
    var q3 := l / 0x100_0000;
    var q4 := q3 / 0x100;
    assert l == b[0] as int + 0x100 * q1;
    assert q1 == b[1] as int + 0x100 * q2;
    assert q2 == b[2] as int + 0x100 * q3;
    assert q3 == b[3] as int + 0x100 * q4;
    assert -1 <= q4 <= 0;
    assert b[0] as int + 0x100 * b[1] as int + 0x1_0000 * b[2] as int + 0x100_0000 * b[3] as int == l - 0x1_0000_0000 * q4;
  }

  /** The fields of `WAV_FILE_INFO`; all but the first two are `short`s. */
  datatype WavInfo = WavInfo(
    SampleRate: int,
    NumberOfSamples: int,
    NumberOfChannels: int,
    WordLength: int,
    BytesPerSample: int,
    DataFormat: int)

  /** Values a `WAV_FILE_INFO` can hold. */
  predicate Representable(info: WavInfo)
  {
    && IsInt(info.SampleRate) && IsInt(info.NumberOfSamples)
    && IsShort(info.NumberOfChannels) && IsShort(info.WordLength)
    && IsShort(info.BytesPerSample) && IsShort(info.DataFormat)
  }

  /**
   * `wav_set_info`: the four `short` parameters are converted on the way
   * in, so out-of-range arguments wrap; in-range ones are kept.
   */
  function SetInfo(sampleRate: int, numberOfSamples: int, numberOfChannels: int,
                   wordLength: int, bytesPerSample: int, dataFormat: int): (r: WavInfo)
    requires IsInt(sampleRate) && IsInt(numberOfSamples)
    ensures Representable(r)
    ensures r.SampleRate == sampleRate && r.NumberOfSamples == numberOfSamples
    ensures IsShort(numberOfChannels) ==> r.NumberOfChannels == numberOfChannels
    ensures IsShort(wordLength) ==> r.WordLength == wordLength
    ensures IsShort(bytesPerSample) ==> r.BytesPerSample == bytesPerSample
    ensures IsShort(dataFormat) ==> r.DataFormat == dataFormat
  {
    WavInfo(sampleRate, numberOfSamples, ShortOf(numberOfChannels), ShortOf(wordLength),
            ShortOf(bytesPerSample), ShortOf(dataFormat))
  }

  const RIFF_TAG: seq<Byte> := [0x52, 0x49, 0x46, 0x46]                           // "RIFF"
  const WAVE_FMT_TAG: seq<Byte> := [0x57, 0x41, 0x56, 0x45, 0x66, 0x6d, 0x74, 0x20] // "WAVEfmt "
  const DATA_TAG: seq<Byte> := [0x64, 0x61, 0x74, 0x61]                           // "data"
  /** Size of a canonical header: the 'data' chunk starts right after it. */
  const HEADER_LENGTH: nat := 44
  /** Size of the PCM 'fmt ' chunk body. */
  const FMT_LENGTH: int := 16

  /** "RIFF", the RIFF chunk length, "WAVEfmt " and the 'fmt ' chunk size. */
  function RiffPreamble(info: WavInfo): seq<Byte>
  {
    RIFF_TAG + LongBytes(JavaText.IntOf(info.BytesPerSample * info.NumberOfSamples + 36)) + WAVE_FMT_TAG + LongBytes(FMT_LENGTH)
  }

  /** The body of the 'fmt ' chunk. */
  function FmtFields(info: WavInfo): seq<Byte>
  {
    WordBytes(info.DataFormat) + WordBytes(info.NumberOfChannels)
    + LongBytes(info.SampleRate) + LongBytes(JavaText.IntOf(info.BytesPerSample * info.SampleRate))
    + WordBytes(info.BytesPerSample) + WordBytes(info.WordLength)
  }

  /** "data" and the length of the samples that follow. */
  function DataChunkHeader(info: WavInfo): seq<Byte>
  {
    DATA_TAG + LongBytes(JavaText.IntOf(info.BytesPerSample * info.NumberOfSamples))
  }

  /** The bytes `wav_write_header` produces for `info`. */
  function HeaderBytes(info: WavInfo): (h: seq<Byte>)
    ensures |h| == HEADER_LENGTH
  {
    RiffPreamble(info) + FmtFields(info) + DataChunkHeader(info)
  }

  /** "data" starts at byte `q`. */
  predicate DataAt(data: seq<Byte>, q: nat)
  {
    q + 4 <= |data| && data[q..q + 4] == DATA_TAG
  }

  /** The first offset at or after `from` where "data" starts, if any. */
  function FindData(data: seq<Byte>, from: nat): (r: Option<nat>)
    decreases |data| - from
    ensures r.Some? ==> from <= r.value && DataAt(data, r.value)
    ensures r.Some? ==> forall q :: from <= q < r.value ==> !DataAt(data, q)
    ensures r.None? ==> forall q :: from <= q ==> !DataAt(data, q)
  {
    if from + 4 > |data| then None
    else if DataAt(data, from) then Some(from)
    else FindData(data, from + 1)
  }

  /**
   * What `wav_read_header` makes of a file: nothing (its "0 samples" error)
   * unless the file starts with "RIFF", has "WAVEfmt " at byte 8 and format
   * 1 at byte 20, and contains "data" at or after byte 36; then the fields
   * at their canonical offsets, and the sample count is the 'data' chunk's
   * length divided by the bytes per sample. The length field of the RIFF
   * chunk, the size of the 'fmt ' chunk and the data rate are never looked
   * at.
   */
  function ParseHeader(data: seq<Byte>): (r: Option<WavInfo>)
    ensures r.Some? ==> r.value.DataFormat == 1 && Representable(r.value)
    ensures |data| < 4 || data[..4] != RIFF_TAG ==> r.None?
    ensures |data| < 16 || data[8..16] != WAVE_FMT_TAG ==> r.None?
    ensures WordAt(data, 20) != 1 ==> r.None?
    ensures FindData(data, 36).None? ==> r.None?
  {
    if |data| < 4 || data[..4] != RIFF_TAG then None
    else if |data| < 16 || data[8..16] != WAVE_FMT_TAG then None
    else ParseChunks(data)
  }

  /** What `wav_read_header` makes of the file from byte 16 on, once both tags have matched. */
  function ParseChunks(data: seq<Byte>): (r: Option<WavInfo>)
    ensures r.Some? ==> r.value.DataFormat == 1 && Representable(r.value)
    ensures WordAt(data, 20) != 1 ==> r.None?
    ensures FindData(data, 36).None? ==> r.None?
  {
    if WordAt(data, 20) != 1 then None
    else match FindData(data, 36)
      case None => None
      case Some(q) =>
        var bytesPerSample := WordAt(data, 32);
        if bytesPerSample == 0 then None
        else Some(WavInfo(LongAt(data, 24), JavaText.IntOf(CDiv(LongAt(data, q + 4), bytesPerSample)),
                          WordAt(data, 22), WordAt(data, 34), bytesPerSample, 1))
  }

  /** Two bytes holding `WordBytes(w)` read back as `w`. */
  lemma WordAtBytes(d: seq<Byte>, i: nat, w: int)
    requires IsShort(w) && i + 2 <= |d|
    requires d[i] == WordBytes(w)[0] && d[i + 1] == WordBytes(w)[1]
    ensures WordAt(d, i) == w
  {
    WordRoundTrip(w, []);
  }

  /** Four bytes holding `LongBytes(l)` read back as `l`. */
  lemma LongAtBytes(d: seq<Byte>, i: nat, l: int)
    requires IsInt(l) && i + 4 <= |d|
    requires forall k :: 0 <= k < 4 ==> d[i + k] == LongBytes(l)[k]
    ensures LongAt(d, i) == l
  {
    LongRoundTrip(l, []);
    assert d[i + 3] == LongBytes(l)[3];
  }

  /** The layout of `HeaderBytes`, with its three computed lengths as parameters. */
  lemma LayoutWith(info: WavInfo, riffLength: int, byteRate: int, dataLength: int)
    ensures var h := (RIFF_TAG + LongBytes(riffLength) + WAVE_FMT_TAG + LongBytes(FMT_LENGTH))
        + (WordBytes(info.DataFormat) + WordBytes(info.NumberOfChannels)
           + LongBytes(info.SampleRate) + LongBytes(byteRate)
           + WordBytes(info.BytesPerSample) + WordBytes(info.WordLength))
        + (DATA_TAG + LongBytes(dataLength));
      && h[..4] == RIFF_TAG && h[8..16] == WAVE_FMT_TAG && DataAt(h, 36)
      && h[20..22] == WordBytes(info.DataFormat) && h[22..24] == WordBytes(info.NumberOfChannels)
      && h[24..28] == LongBytes(info.SampleRate)
      && h[32..34] == WordBytes(info.BytesPerSample) && h[34..36] == WordBytes(info.WordLength)
      && h[40..44] == LongBytes(dataLength)
  {
  }

  /** Where `HeaderBytes` puts each field. */
  lemma HeaderLayout(info: WavInfo)
    ensures var h := HeaderBytes(info);
      && h[..4] == RIFF_TAG && h[8..16] == WAVE_FMT_TAG && DataAt(h, 36)
      && h[20..22] == WordBytes(info.DataFormat) && h[22..24] == WordBytes(info.NumberOfChannels)
      && h[24..28] == LongBytes(info.SampleRate)
      && h[32..34] == WordBytes(info.BytesPerSample) && h[34..36] == WordBytes(info.WordLength)
      && h[40..44] == LongBytes(JavaText.IntOf(info.BytesPerSample * info.NumberOfSamples))
  {
    LayoutWith(info, JavaText.IntOf(info.BytesPerSample * info.NumberOfSamples + 36),
      JavaText.IntOf(info.BytesPerSample * info.SampleRate), JavaText.IntOf(info.BytesPerSample * info.NumberOfSamples));
  }

  /**
   * Reading the header written for a PCM file with a positive sample size,
   * whose data length fits an `int`, recovers every field of it.
   */
  lemma HeaderRoundTrip(info: WavInfo, rest: seq<Byte>)
    requires Representable(info) && info.DataFormat == 1 && info.BytesPerSample > 0
    requires IsInt(info.BytesPerSample * info.NumberOfSamples)
    ensures ParseHeader(HeaderBytes(info) + rest) == Some(info)
  {
    var h := HeaderBytes(info);
    var d := h + rest;
    HeaderLayout(info);
    assert d[..44] == h;
    assert d[..4] == h[..4];
    assert d[8..16] == h[8..16];
    assert DataAt(d, 36) by {
      assert d[36..40] == h[36..40];
    }
    assert FindData(d, 36) == Some(36);
    WordAtBytes(d, 20, info.DataFormat);
    WordAtBytes(d, 22, info.NumberOfChannels);
    WordAtBytes(d, 32, info.BytesPerSample);
    WordAtBytes(d, 34, info.WordLength);
    assert forall k :: 0 <= k < 4 ==> d[24 + k] == h[24..28][k];
    LongAtBytes(d, 24, info.SampleRate);
    var dataLength := info.BytesPerSample * info.NumberOfSamples;
    assert forall k :: 0 <= k < 4 ==> d[40 + k] == h[40..44][k];
    LongAtBytes(d, 40, dataLength);
    CDivExact(info.NumberOfSamples, info.BytesPerSample);
  }

  /** An output file being written: `putc` appends the low byte of its argument. */
  class Writer {
    var out: seq<Byte>

    constructor()
      ensures out == []
    {
      out := [];
    }

    /** `putc(c)`, which writes `(unsigned char)c`. */
    method Putc(c: int)
      modifies this
      ensures out == old(out) + [c % 0x100]
    {
      out := out + [c % 0x100];
    }

    /** `fprintf` of a literal tag. */
    method PutTag(tag: seq<Byte>)
      modifies this
      ensures out == old(out) + tag
    {
      out := out + tag;
    }

    /** `wav_write_word(w)` of a `short`. */
    method WriteWord(w: int)
      modifies this
      ensures out == old(out) + WordBytes(w)
    {
      Putc(w % 0x100);
      Putc((w / 0x100) % 0x100);
    }

    /** `wav_write_long(l)`. */
    method WriteLong(l: int)
      modifies this
      ensures out == old(out) + LongBytes(l)
    {
      Putc(l % 0x100);
      Putc((l / 0x100) % 0x100);
      Putc((l / 0x1_0000) % 0x100);
      Putc((l / 0x100_0000) % 0x100);
    }

    method WriteRiffPreamble(info: WavInfo)
      modifies this
      ensures out == old(out) + RiffPreamble(info)
    {
      PutTag(RIFF_TAG);
      WriteLong(JavaText.IntOf(info.BytesPerSample * info.NumberOfSamples + 36));
      PutTag(WAVE_FMT_TAG);
      WriteLong(FMT_LENGTH);
    }

    method WriteFmtFields(info: WavInfo)
      modifies this
      ensures out == old(out) + FmtFields(info)
    {
      WriteWord(info.DataFormat);
      WriteWord(info.NumberOfChannels);
      WriteLong(info.SampleRate);
      WriteLong(JavaText.IntOf(info.BytesPerSample * info.SampleRate));
      WriteWord(info.BytesPerSample);
      WriteWord(info.WordLength);
    }

    /** `wav_write_header`. */
    method WriteHeader(info: WavInfo)
      modifies this
      ensures out == old(out) + HeaderBytes(info)
    {
      WriteRiffPreamble(info);
      WriteFmtFields(info);
      PutTag(DATA_TAG);
      WriteLong(JavaText.IntOf(info.BytesPerSample * info.NumberOfSamples));
    }
  }

  /** `wav_write_data16`/`wav_write_data32`'s bytes for one sample. */
  function SampleBytes(wordLength: int, x: int): seq<Byte>
  {
    if wordLength == 16 then WordBytes(ShortOf(x))
    else if wordLength == 8 then [ShortOf(x) % 0x100]
    else []
  }

  /**
   * The bytes written for `xs`: each sample converted to `short`, then as a
   * 16-bit word or only its low byte; nothing at all for any other word
   * length, where the loop stops before its first write.
   */
  function SamplesBytes(wordLength: int, xs: seq<int>): (r: seq<Byte>)
    ensures wordLength == 16 ==> |r| == 2 * |xs|
    ensures wordLength == 8 ==> |r| == |xs|
    ensures wordLength != 16 && wordLength != 8 ==> r == []
  {
    if xs == [] then []
    else SamplesBytes(wordLength, xs[..|xs| - 1]) + SampleBytes(wordLength, xs[|xs| - 1])
  }

  /** Writing one more sample after the first `i` appends its bytes. */
  lemma SamplesBytesStep(out: seq<Byte>, wordLength: int, xs: seq<int>, i: nat)
    requires i < |xs|
    ensures out + SamplesBytes(wordLength, xs[..i]) + SampleBytes(wordLength, xs[i])
         == out + SamplesBytes(wordLength, xs[..i + 1])
  {
    assert xs[..i + 1][..i] == xs[..i];
  }

  /** Where sample `i` lands among the written bytes. */
  lemma {:induction false} SamplesBytesAt(wordLength: int, xs: seq<int>, i: nat)
    requires wordLength == 16 || wordLength == 8
    requires i < |xs|
    ensures wordLength == 16 ==> SamplesBytes(wordLength, xs)[2 * i..2 * i + 2] == WordBytes(ShortOf(xs[i]))
    ensures wordLength == 8 ==> SamplesBytes(wordLength, xs)[i] == ShortOf(xs[i]) % 0x100
  {
    var init := xs[..|xs| - 1];
    if i < |xs| - 1 {
      SamplesBytesAt(wordLength, init, i);
      assert init[i] == xs[i];
      if wordLength == 16 {
        assert SamplesBytes(wordLength, xs)[2 * i..2 * i + 2] == SamplesBytes(wordLength, init)[2 * i..2 * i + 2];
      }
    }
  }

  /**
   * What slot `i` of `wav_read_data16`/`wav_read_data32` receives when
   * reading starts at byte `start`: the 16-bit word or the (signed) `char`
   * there, or 0 when the file ends before the sample does.
   */
  function Sample(data: seq<Byte>, start: nat, wordLength: int, i: nat): int
  {
    if wordLength == 16 then
      (if start + 2 * i + 2 <= |data| then WordAt(data, start + 2 * i) else 0)
    else if wordLength == 8 then
      (if start + i < |data| then SignedChar(data[start + i]) else 0)
    else 0
  }

  /** How many whole samples remain from byte `start`. */
  function Available(data: seq<Byte>, start: nat, wordLength: int): nat
    requires start <= |data|
  {
    if wordLength == 16 then (|data| - start) / 2 else |data| - start
  }

  /**
   * Reading back what was written gives the samples, for 16-bit samples
   * that fit a `short` and 8-bit samples that fit a signed `char`.
   */
  lemma SamplesRoundTrip(wordLength: int, xs: seq<int>, i: nat, rest: seq<Byte>)
    requires wordLength == 16 || wordLength == 8
    requires i < |xs|
    requires wordLength == 16 ==> IsShort(xs[i])
    requires wordLength == 8 ==> -0x80 <= xs[i] < 0x80
    ensures Sample(SamplesBytes(wordLength, xs) + rest, 0, wordLength, i) == xs[i]
  {
    var d := SamplesBytes(wordLength, xs) + rest;
    SamplesBytesAt(wordLength, xs, i);
    if wordLength == 16 {
      assert d[2 * i..2 * i + 2] == WordBytes(xs[i]);
      WordAtBytes(d, 2 * i, xs[i]);
    } else {
      assert d[i] == SamplesBytes(wordLength, xs)[i];
    }
  }

  /** An input file being read: its bytes, the read position, and the end-of-file flag. */
  class Reader {
    const data: seq<Byte>
    var pos: nat
    var eof: bool

    /** The flag is set only by a read that found the end. */
    ghost predicate Valid()
      reads this
    {
      pos <= |data| && (eof ==> pos == |data|)
    }

    constructor(data: seq<Byte>)
      ensures this.data == data && pos == 0 && !eof && Valid()
    {
      this.data := data;
      pos := 0;
      eof := false;
    }

    /** `rewind`: back to the start, clearing the end-of-file flag. */
    method Rewind()
      modifies this
      ensures pos == 0 && !eof && Valid()
    {
      pos := 0;
      eof := false;
    }

    /** `getc`: the next byte, or -1 at the end of the file, which sets the flag. */
    method Getc() returns (c: int)
      requires Valid()
      modifies this
      ensures Valid()
      ensures old(pos) < |data| ==> c == data[old(pos)] && pos == old(pos) + 1 && eof == old(eof)
      ensures old(pos) == |data| ==> c == -1 && pos == old(pos) && eof
    {
      if pos < |data| {
        c := data[pos];
        pos := pos + 1;
      } else {
        c := -1;
        eof := true;
      }
    }

    /** `fread(buf, 1, n, f)`: up to `n` bytes; a short read sets the flag. */
    method Read(n: nat) returns (bytes: seq<Byte>)
      requires Valid()
      modifies this
      ensures Valid()
      ensures pos == if old(pos) + n <= |data| then old(pos) + n else |data|
      ensures bytes == data[old(pos)..pos]
      ensures eof == (old(eof) || old(pos) + n > |data|)
    {
      var end := if pos + n <= |data| then pos + n else |data|;
      bytes := data[pos..end];
      if pos + n > |data| {
        eof := true;
      }
      pos := end;
    }

    /** `wav_read_word`. */
    method ReadWord() returns (w: int)
      requires Valid()
      modifies this
      ensures Valid()
      ensures w == WordAt(data, old(pos))
      ensures pos == if old(pos) + 2 <= |data| then old(pos) + 2 else |data|
      ensures eof == (old(eof) || old(pos) + 2 > |data|)
    {
      var c0 := Getc();
      var c1 := Getc();
      w := if c0 == -1 then -1 else if c1 == -1 then c0 - 0x100 else ShortOf(c0 + 0x100 * c1);
    }

    /** `wav_read_long`. */
    method ReadLong() returns (l: int)
      requires Valid()
      modifies this
      ensures Valid()
      ensures l == LongAt(data, old(pos))
      ensures pos == if old(pos) + 4 <= |data| then old(pos) + 4 else |data|
      ensures eof == (old(eof) || old(pos) + 4 > |data|)
    {
      var c0 := Getc();
      var c1 := Getc();
      var c2 := Getc();
      var c3 := Getc();
      l := if c0 == -1 then -1
           else if c1 == -1 then c0 - 0x100
           else if c2 == -1 then c0 + 0x100 * c1 - 0x1_0000
           else if c3 == -1 then c0 + 0x100 * c1 + 0x1_0000 * c2 - 0x100_0000
           else JavaText.IntOf(c0 + 0x100 * c1 + 0x1_0000 * c2 + 0x100_0000 * c3);
    }
  }

  /** The four characters of the scan window that `fread` of "WAVEfmt " leaves behind. */
  const WAVE_TAIL: seq<int> := [0x57, 0x41, 0x56, 0x45]   // "WAVE"

  /** The window after reading byte `p - 1`: the last four of "WAVE" and the bytes from 36 on. */
  function Window(data: seq<Byte>, p: nat): seq<int>
    requires 36 <= p <= |data|
  {
    (WAVE_TAIL + data[36..p])[p - 36..]
  }

  /** Reading byte `p` slides the window by one. */
  lemma WindowSlides(data: seq<Byte>, p: nat)
    requires 36 <= p < |data|
    ensures Window(data, p)[1..] + [data[p] as int] == Window(data, p + 1)
  {
    assert WAVE_TAIL + data[36..p + 1] == (WAVE_TAIL + data[36..p]) + [data[p] as int];
  }

  /** The window spells "data" exactly when "data" ends at `p`. */
  lemma WindowSpellsData(data: seq<Byte>, p: nat)
    requires 36 <= p <= |data|
    ensures Window(data, p) == [0x64, 0x61, 0x74, 0x61] <==> p >= 40 && DataAt(data, p - 4)
  {
    var w := Window(data, p);
    if p < 40 {
      assert w[0] == WAVE_TAIL[p - 36];
    } else {
      assert w == data[p - 4..p];
    }
  }

  /** No "data" ends before byte `p`, counting from byte 36. */
  predicate NoDataBefore(data: seq<Byte>, p: nat)
  {
    forall q :: 36 <= q && q + 4 < p ==> !DataAt(data, q)
  }

  /**
   * One step of the scan: when "data" has not ended at `p`, reading byte
   * `p` slides the window, and the new window spells "data" exactly when
   * "data" ends at `p + 1`.
   */
  lemma ScanStep(data: seq<Byte>, p: nat)
    requires 36 <= p < |data|
    requires NoDataBefore(data, p) && !(p >= 40 && DataAt(data, p - 4))
    ensures NoDataBefore(data, p + 1)
    ensures Window(data, p)[1..] + [data[p] as int] == Window(data, p + 1)
    ensures Window(data, p + 1) == [0x64, 0x61, 0x74, 0x61] <==> p + 1 >= 40 && DataAt(data, p + 1 - 4)
  {
    WindowSlides(data, p);
    WindowSpellsData(data, p + 1);
  }

  /** The first "data" found from byte 36 is the one the search finds. */
  lemma FirstData(data: seq<Byte>, at: nat)
    requires 36 <= at && DataAt(data, at)
    requires NoDataBefore(data, at + 4)
    ensures FindData(data, 36) == Some(at)
  {
  }

  /** A scan that reaches the end of the file without "data" finds nothing. */
  lemma NoData(data: seq<Byte>)
    requires 36 <= |data|
    requires NoDataBefore(data, |data|) && !(|data| >= 40 && DataAt(data, |data| - 4))
    ensures FindData(data, 36).None?
  {
    forall q | 36 <= q && q + 4 <= |data|
      ensures !DataAt(data, q)
    {
    }
  }

  /**
   * The scan of `wav_read_header` for "data" from byte 36: a window of the
   * last four characters read slides one `getc` at a time until it spells
   * "data"; the end of the file ends the scan with failure.
   */
  method ScanForData(r: Reader) returns (found: bool)
    requires r.Valid() && r.pos == (if |r.data| < 36 then |r.data| else 36)
    modifies r
    ensures r.Valid()
    ensures found <==> FindData(r.data, 36).Some?
    ensures found ==> r.pos == FindData(r.data, 36).value + 4
  {
    if |r.data| < 36 {
      var _ := r.Getc();
      return false;
    }
    var window: seq<int> := WAVE_TAIL;
    assert r.data[36..36] == [];
    found := false;
    while !found
      invariant r.Valid() && 36 <= r.pos
      invariant window == Window(r.data, r.pos)
      invariant NoDataBefore(r.data, r.pos)
      invariant found <==> r.pos >= 40 && DataAt(r.data, r.pos - 4)
      decreases |r.data| - r.pos
    {
      ghost var p := r.pos;
      var c := r.Getc();
      window := window[1..] + [c];
      if window == [0x64, 0x61, 0x74, 0x61] {
        found := true;
      }
      if r.eof {
        NoData(r.data);
        return false;
      }
      ScanStep(r.data, p);
    }
    FirstData(r.data, r.pos - 4);
  }

  /**
   * `wav_read_header`: rewinds, checks the tags, and reads the rest of the
   * header. `None` is the function's error result (0 samples).
   */
  method ReadHeader(r: Reader) returns (info: Option<WavInfo>)
    requires r.Valid()
    modifies r
    ensures r.Valid()
    ensures info == ParseHeader(r.data)
  {
    r.Rewind();
    var tag := r.Read(4);
    if tag != RIFF_TAG {
      return None;
    }
    var _ := r.ReadLong();
    tag := r.Read(8);
    if tag != WAVE_FMT_TAG {
      return None;
    }
    info := ReadChunks(r);
  }

  /**
   * The rest of `wav_read_header` from byte 16: checks the format, reads the
   * fields, scans for the 'data' chunk and divides its length by the bytes
   * per sample.
   */
  method ReadChunks(r: Reader) returns (info: Option<WavInfo>)
    requires r.Valid() && r.pos == 16
    modifies r
    ensures r.Valid()
    ensures info == ParseChunks(r.data)
  {
    var _ := r.ReadLong();
    var format := r.ReadWord();
    if format != 1 {
      return None;
    }
    var channels, rate, bytesPerSample, wordLength := ReadFormat(r);
    var found := ScanForData(r);
    if !found {
      return None;
    }
    var length := r.ReadLong();
    if bytesPerSample == 0 {
      return None;
    }
    info := Some(WavInfo(rate, JavaText.IntOf(CDiv(length, bytesPerSample)), channels, wordLength, bytesPerSample, 1));
  }

  /**
   * The rest of the "fmt " chunk after the format word: channels, sample
   * rate, byte rate (skipped), bytes per sample and word length, leaving
   * the reader at byte 36 or at the end of a shorter file.
   */
  method ReadFormat(r: Reader) returns (channels: int, rate: int, bytesPerSample: int, wordLength: int)
    requires r.Valid() && r.pos == 22
    modifies r
    ensures r.Valid()
    ensures r.pos == (if |r.data| < 36 then |r.data| else 36)
    ensures channels == WordAt(r.data, 22) && rate == LongAt(r.data, 24)
    ensures bytesPerSample == WordAt(r.data, 32) && wordLength == WordAt(r.data, 34)
  {
    channels := r.ReadWord();
    rate := r.ReadLong();
    var _ := r.ReadLong();
    bytesPerSample := r.ReadWord();
    wordLength := r.ReadWord();
  }

  function Min(a: int, b: int): int
  {
    if a <= b then a else b
  }

  /**
   * `wav_read_data16`, and `wav_read_data32`, whose loop is the same with
   * `int` slots: for each of `bufLen` slots, reads a 16-bit word or one
   * `char` and stores it, or 0 once the file has ended, counting only the
   * samples actually read. Any other word length stops at the first slot
   * with a count of 0.
   */
  method ReadData(r: Reader, info: WavInfo, buf: array<int>, bufLen: int) returns (count: int)
    requires r.Valid() && bufLen <= buf.Length
    modifies r, buf
    ensures r.Valid()
    ensures info.WordLength != 16 && info.WordLength != 8 ==> count == 0 && buf[..] == old(buf[..])
    ensures info.WordLength == 16 || info.WordLength == 8 ==>
      && count == (if bufLen <= 0 then 0 else Min(bufLen, Available(r.data, old(r.pos), info.WordLength)))
      && (forall i :: 0 <= i < bufLen ==> buf[i] == Sample(r.data, old(r.pos), info.WordLength, i))
      && (forall i :: 0 <= i < buf.Length && i >= bufLen ==> buf[i] == old(buf[i]))
  {
    var wordLength := info.WordLength;
    ghost var start := r.pos;
    ghost var step := if wordLength == 16 then 2 else 1;
    count := 0;
    var n := if bufLen < 0 then 0 else bufLen;
    var i := 0;
    while i < n
      invariant 0 <= i <= n
      invariant r.Valid()
      invariant i > 0 ==> wordLength == 16 || wordLength == 8
      invariant r.pos == Min(start + step * i, |r.data|)
      invariant count == Min(i, Available(r.data, start, wordLength))
      invariant forall k :: 0 <= k < i ==> buf[k] == Sample(r.data, start, wordLength, k)
      invariant forall k :: 0 <= k < buf.Length && k >= i ==> buf[k] == old(buf[k])
    {
      if wordLength == 16 {
        var word := r.ReadWord();
        if r.eof {
          buf[i] := 0;
        } else {
          buf[i] := word;
          count := count + 1;
        }
      } else if wordLength == 8 {
        var c := r.Getc();
        if r.eof {
          buf[i] := 0;
        } else {
          buf[i] := SignedChar(c as Byte);
          count := count + 1;
        }
      } else {
        return 0;
      }
      i := i + 1;
    }
  }

  /**
   * `wav_write_data16`, and `wav_write_data32`, the same loop over `int`
   * samples: writes `bufLen` samples of `xs`, each as a 16-bit word or as
   * its low byte; any other word length writes nothing.
   */
  method WriteData(w: Writer, info: WavInfo, xs: seq<int>, bufLen: int)
    requires bufLen <= |xs|
    modifies w
    ensures w.out == old(w.out) + SamplesBytes(info.WordLength, xs[..if bufLen < 0 then 0 else bufLen])
  {
    var wordLength := info.WordLength;
    var n := if bufLen < 0 then 0 else bufLen;
    ghost var out := w.out;
    var i := 0;
    while i < n
      invariant 0 <= i <= n
      invariant w.out == out + SamplesBytes(wordLength, xs[..i])
    {
      if wordLength == 16 {
        w.WriteWord(ShortOf(xs[i]));
      } else if wordLength == 8 {
        w.Putc(ShortOf(xs[i]) % 0x100);
      } else {
        return;
      }
      SamplesBytesStep(out, wordLength, xs, i);
      i := i + 1;
    }
  }
}
