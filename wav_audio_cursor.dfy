/**
 * WavAudioCursor: a cursor over an uncompressed PCM WAV file.  Opening the
 * cursor reads the RIFF header, the "WAVE" type, the "fmt " chunk and its
 * format record, looks for the "data" chunk and loads it into a buffer;
 * read_samples then hands out interleaved 16-bit samples frame by frame.
 * The file is a sequence of bytes; multi-byte fields are little-endian.
 */
module WavAudioCursorModel {
  import opened Wrappers
  import opened Arith

  type byte = b: int | 0 <= b < 0x100

  const RIFF: seq<byte> := [0x52, 0x49, 0x46, 0x46]
  const WAVE: seq<byte> := [0x57, 0x41, 0x56, 0x45]
  const FMT: seq<byte> := [0x66, 0x6d, 0x74, 0x20]
  const DATA: seq<byte> := [0x64, 0x61, 0x74, 0x61]
  /** Format type 1: uncompressed PCM. */
  const PCM: nat := 1
  /** Bytes of a chunk header (id and size) and of the format record. */
  const CHUNK_HEADER_SIZE: nat := 8
  const FORMAT_SIZE: nat := 16
  /** Where the chunk after the format record starts: RIFF header, type, fmt header, format record. */
  const AFTER_FORMAT: nat := 36

  function U16(d: seq<byte>, p: nat): (r: nat)
    requires p + 2 <= |d|
    ensures r < 0x1_0000
  {
    d[p] as int + 0x100 * d[p + 1] as int
  }

  function U32(d: seq<byte>, p: nat): (r: nat)
    requires p + 4 <= |d|
    ensures r < 0x1_0000_0000
  {
    U16(d, p) + 0x1_0000 * U16(d, p + 2)
  }

  /** The id of the chunk whose header starts at p. */
  function ChunkId(d: seq<byte>, p: nat): seq<byte>
    requires p + CHUNK_HEADER_SIZE <= |d|
  {
    d[p..p + 4]
  }

  /** The format record's values as the cursor keeps them. */
  datatype Format = Format(channels: nat, bytesPerSample: nat, rate: nat)

  /**
   * The RIFF header, the WAVE type and the fmt header are in place and the
   * format record, which follows them, says PCM.
   */
  predicate Preamble(d: seq<byte>)
  {
    |d| >= AFTER_FORMAT && d[0..4] == RIFF && d[8..12] == WAVE && d[12..16] == FMT && U16(d, 20) == PCM
  }

  /**
   * The cursor's fields from the format record: the channel count, the bits
   * per sample over 8 (kept in an unsigned char), and the rate, of whose
   * 32-bit field only the low 16 bits are read.
   */
  function FormatOf(d: seq<byte>): (f: Format)
    requires |d| >= AFTER_FORMAT
    ensures f.channels < 0x1_0000 && f.bytesPerSample < 0x100 && f.rate < 0x1_0000
    ensures f.rate == U32(d, 24) % 0x1_0000
  {
    Format(U16(d, 22), (U16(d, 34) / 8) % 0x100, U16(d, 24))
  }

  /**
   * The header position of the first "data" chunk reached from p by
   * stepping over whole chunks, or None when a chunk header runs past the
   * end of the file first.
   */
  function FindData(d: seq<byte>, p: nat): (r: Option<nat>)
    ensures r.Some? ==> p <= r.value && r.value + CHUNK_HEADER_SIZE <= |d| && ChunkId(d, r.value) == DATA
    decreases if p <= |d| then |d| - p else 0
  {
    if p + CHUNK_HEADER_SIZE > |d| then None
    else if ChunkId(d, p) == DATA then Some(p)
    else FindData(d, p + CHUNK_HEADER_SIZE + U32(d, p + 4))
  }

  /**
   * The search as written: after stepping over a chunk that is not "data"
   * successfully, the loop stops without a result, and after a failed step
   * the next read fails; so only a "data" chunk right at p is found.
   */
  function FindDataAsWritten(d: seq<byte>, p: nat): (r: Option<nat>)
  {
    if p + CHUNK_HEADER_SIZE <= |d| && ChunkId(d, p) == DATA then Some(p) else None
  }

  /** Where the "data" chunk was found, its format, and its size. */
  datatype Wav = Wav(fmt: Format, dataStart: nat, dataSize: nat)

  /**
   * A file the cursor opens: the preamble, a "data" chunk, a format whose
   * channel count and sample width are not zero, and all of the data
   * chunk's bytes present.  The rate is not checked: a rate of 0 only makes
   * the length non-finite.
   */
  function ParseWav(d: seq<byte>): (r: Option<Wav>)
    ensures r.Some? ==> r.value.dataStart + r.value.dataSize <= |d|
    ensures r.Some? ==> r.value.fmt.channels > 0 && r.value.fmt.bytesPerSample > 0
    ensures r.Some? ==> Preamble(d) && r.value.fmt == FormatOf(d) && r.value.dataStart >= CHUNK_HEADER_SIZE &&
                        FindData(d, AFTER_FORMAT) == Some(r.value.dataStart - CHUNK_HEADER_SIZE)
    ensures Preamble(d) && FindData(d, AFTER_FORMAT).Some? && FormatOf(d).channels > 0 && FormatOf(d).bytesPerSample > 0 &&
            FindData(d, AFTER_FORMAT).value + CHUNK_HEADER_SIZE + U32(d, FindData(d, AFTER_FORMAT).value + 4) <= |d|
            ==> r.Some?
  {
    if !Preamble(d) then None
    else
      match FindData(d, AFTER_FORMAT)
      case None => None
      case Some(p) =>
        var f := FormatOf(d);
        var size := U32(d, p + 4);
        if f.channels == 0 || f.bytesPerSample == 0 then None
        else if p + CHUNK_HEADER_SIZE + size > |d| then None
        else Some(Wav(f, p + CHUNK_HEADER_SIZE, size))
  }

  /** The number of whole frames in the data: data size / channels / bytes per sample. */
  function NumSamples(size: nat, channels: nat, bytesPerSample: nat): nat
    requires channels > 0 && bytesPerSample > 0
  {
    size / channels / bytesPerSample
  }

  /** The frame count is the largest whole number of frames the data holds. */
  lemma NumSamplesBounds(size: nat, ch: nat, bps: nat)
    requires ch > 0 && bps > 0
    ensures NumSamples(size, ch, bps) * ch * bps <= size < (NumSamples(size, ch, bps) + 1) * ch * bps
  {
    var q := size / ch;
    var a := size % ch;
    var r := q / bps;
    var b := q % bps;
    assert size == q * ch + a;
    assert q == r * bps + b;
    assert q * ch == r * bps * ch + b * ch;
    MulMonotone(b, bps - 1, ch);
    assert (bps - 1) * ch == bps * ch - ch;
    assert r * ch * bps == r * bps * ch;
    assert (r + 1) * ch * bps == r * ch * bps + ch * bps;
  }

  /** num_samples as written: the divisions by a zero channel count or sample width have no result. */
  function NumSamplesAsWritten(size: nat, channels: nat, bytesPerSample: nat): (r: Option<nat>)
    ensures r.Some? <==> channels != 0 && bytesPerSample != 0
    ensures r.Some? ==> r.value == NumSamples(size, channels, bytesPerSample)
  {
    if channels == 0 || bytesPerSample == 0 then None else Some(size / channels / bytesPerSample)
  }

  /** A single-precision float as far as the cursor's length needs one: a finite value, +infinity or NaN. */
  datatype Float = Finite(value: real) | Infinity | NaN

  /**
   * The length in seconds: the frame count divided, in floating point, by
   * the rate.  A rate of 0 gives +infinity, or NaN when there are no frames.
   */
  function LengthOf(numSamples: nat, rate: nat): (r: Float)
    ensures r.Finite? <==> rate > 0
    ensures r.Finite? ==> r.value * rate as real == numSamples as real
    ensures r == NaN <==> rate == 0 && numSamples == 0
  {
    if rate > 0 then Finite(numSamples as real / rate as real)
    else if numSamples > 0 then Infinity
    else NaN
  }

  /** A uint16 sample read into a PN_int16: two's complement. */
  function Int16(v: nat): (r: int)
    requires v < 0x1_0000
    ensures -0x8000 <= r < 0x8000
  {
    if v >= 0x8000 then v - 0x1_0000 else v
  }

  /** An 8-bit sample s, unsigned, becomes (s - 128) << 8. */
  function Widen8(b: byte): (r: int)
    ensures -0x8000 <= r < 0x8000
  {
    (b - 128) * 0x100
  }

  /** Sample number j of the buffer lies inside it. */
  predicate Fits(buf: seq<byte>, bytesPerSample: nat, j: nat)
  {
    if bytesPerSample == 2 then 2 * j + 1 < |buf| else j < |buf|
  }

  /** Sample number j of the buffer, interleaved over channels: a little-endian 16-bit word, or a widened byte. */
  function SampleAt(buf: seq<byte>, bytesPerSample: nat, j: nat): (r: int)
    requires bytesPerSample == 1 || bytesPerSample == 2
    requires Fits(buf, bytesPerSample, j)
    ensures -0x8000 <= r < 0x8000
  {
    if bytesPerSample == 2 then Int16(buf[2 * j] as int + 0x100 * buf[2 * j + 1] as int) else Widen8(buf[j])
  }

  /** A 16-bit sample written little-endian as two's complement reads back as itself. */
  lemma SampleRoundTrip(v: int)
    requires -0x8000 <= v < 0x8000
    ensures var u := (v + 0x1_0000) % 0x1_0000;
      SampleAt([u % 0x100, u / 0x100], 2, 0) == v
  {
    var u := (v + 0x1_0000) % 0x1_0000;
    assert u % 0x100 + 0x100 * (u / 0x100) == u;
  }

  /** Every sample below m frames' worth of samples lies in a buffer of at least m * width bytes. */
  lemma BufferHolds(buf: seq<byte>, bps: nat, m: nat, j: nat)
    requires (bps == 1 || bps == 2) && m * bps <= |buf| && j < m
    ensures Fits(buf, bps, j)
  {
  }

  /** Where seek puts the cursor: length * rate (the whole data) cut to 16 bits, but at most the last frame. */
  function SeekTarget(numSamples: nat): (r: nat)
    requires numSamples >= 1
    ensures r < numSamples && r < 0x1_0000
    ensures numSamples < 0x1_0000 ==> r == numSamples - 1
  {
    if numSamples % 0x1_0000 > numSamples - 1 then numSamples - 1 else numSamples % 0x1_0000
  }

  /** A non-negative double converted to PN_uint16: the whole part, cut to 16 bits. */
  function TruncU16(x: real): (r: nat)
    requires x >= 0.0
    ensures r < 0x1_0000
  {
    x.Floor % 0x1_0000
  }

  /** The frames read_samples hands out: as many as asked for, but no more than remain. */
  function FramesRead(n: int, remaining: nat): (k: nat)
    ensures k <= remaining && (n <= 0 ==> k == 0) && (n > 0 ==> k == n || k == remaining)
  {
    if n <= 0 then 0 else if n <= remaining then n else remaining
  }

  /**
   * The output after lim samples: the buffer holds samples off to
   * off + lim - 1, position i below lim holds the buffer's sample off + i,
   * and every other position keeps its old value.
   */
  ghost predicate Delivered(out: seq<int>, orig: seq<int>, buf: seq<byte>, bytesPerSample: nat, off: nat, lim: nat)
    requires bytesPerSample == 1 || bytesPerSample == 2
  {
    |out| == |orig| && (lim > 0 ==> Fits(buf, bytesPerSample, off + lim - 1)) &&
    (forall i :: 0 <= i < lim && i < |out| ==> out[i] == SampleAt(buf, bytesPerSample, off + i)) &&
    (forall i :: lim <= i < |out| ==> out[i] == orig[i])
  }

  class WavAudioCursor {
    var isOpen: bool
    var bytesPerSample: nat
    var numSamples: nat
    var audioBufferSize: nat
    var audioBuffer: array?<byte>
    var audioChannels: nat
    var audioRate: nat
    var length: Float
    var samplesRead: nat
    var canSeek: bool
    var canSeekFast: bool

    /**
     * While the cursor is open its buffer holds the data chunk, the channel
     * count and sample width are usable as divisors, the frame count and the
     * length follow from them, and the cursor is within the frames.  Without a buffer the
     * buffer size is 0.
     */
    ghost predicate Valid()
      reads this
    {
      (audioBuffer == null ==> audioBufferSize == 0) &&
      (isOpen ==>
        audioBuffer != null && audioBuffer.Length == audioBufferSize &&
        audioChannels > 0 && bytesPerSample > 0 &&
        numSamples == NumSamples(audioBufferSize, audioChannels, bytesPerSample) &&
        samplesRead <= numSamples &&
        length == LengthOf(numSamples, audioRate))
    }

    /**
     * The constructor: a cursor over the file (None when it cannot be found
     * or isOpen), isOpen exactly when the file parses; then the buffer is
     * the data chunk and the cursor is at frame 0.
     */
    constructor (file: Option<seq<byte>>)
      ensures Valid() && !canSeek && canSeekFast && samplesRead == 0
      ensures isOpen <==> file.Some? && ParseWav(file.value).Some?
      ensures isOpen ==>
        var w := ParseWav(file.value).value;
        audioChannels == w.fmt.channels && bytesPerSample == w.fmt.bytesPerSample && audioRate == w.fmt.rate &&
        audioBuffer[..] == file.value[w.dataStart..w.dataStart + w.dataSize] &&
        numSamples == NumSamples(w.dataSize, w.fmt.channels, w.fmt.bytesPerSample)
      ensures !isOpen ==> audioBuffer == null
    {
      isOpen := false;
      audioBuffer := null;
      audioBufferSize := 0;
      canSeek := false;
      canSeekFast := true;
      samplesRead := 0;
      bytesPerSample := 0;
      numSamples := 0;
      audioChannels := 0;
      audioRate := 0;
      length := Finite(0.0);
      new;
      if file.None? {
        Cleanup();
        return;
      }
      Load(file.value);
    }

    /** cleanup: free the buffer (its size goes to 0 with it), rewind and close. */
    method Cleanup()
      modifies this`audioBuffer, this`audioBufferSize, this`samplesRead, this`isOpen
      ensures audioBuffer == null && samplesRead == 0 && !isOpen
      ensures audioBufferSize == if old(audioBuffer) != null then 0 else old(audioBufferSize)
    {
      if audioBuffer != null {
        audioBuffer := null;
        audioBufferSize := 0;
      }
      samplesRead := 0;
      isOpen := false;
    }

    /** The constructor's reads, from a closed cursor without a buffer. */
    method Load(d: seq<byte>)
      requires audioBuffer == null && audioBufferSize == 0 && samplesRead == 0 && !isOpen
      modifies this
      ensures Valid() && samplesRead == 0 && canSeek == old(canSeek) && canSeekFast == old(canSeekFast)
      ensures isOpen <==> ParseWav(d).Some?
      ensures isOpen ==>
        var w := ParseWav(d).value;
        audioChannels == w.fmt.channels && bytesPerSample == w.fmt.bytesPerSample && audioRate == w.fmt.rate &&
        audioBuffer[..] == d[w.dataStart..w.dataStart + w.dataSize] &&
        numSamples == NumSamples(w.dataSize, w.fmt.channels, w.fmt.bytesPerSample)
      ensures !isOpen ==> audioBuffer == null
    {
      var ok := ReadPreamble(d);
      if !ok {
        Cleanup();
        return;
      }
      var f := FormatOf(d);
      audioChannels := f.channels;
      bytesPerSample := f.bytesPerSample;
      audioRate := f.rate;
      var found, p := SeekDataChunk(d);
      if !found {
        Cleanup();
        return;
      }
      LoadData(d, p);
    }

    /**
     * From the data chunk's header at p on: the size, the frame count and
     * the length from the format, then the buffer read.  A zero channel
     * count or sample width, or a short file, leaves the cursor closed; a
     * zero rate does not.
     */
    method LoadData(d: seq<byte>, p: nat)
      requires p + CHUNK_HEADER_SIZE <= |d|
      requires audioBuffer == null && audioBufferSize == 0 && samplesRead == 0 && !isOpen
      modifies this
      ensures Valid() && samplesRead == 0 && canSeek == old(canSeek) && canSeekFast == old(canSeekFast)
      ensures audioChannels == old(audioChannels) && bytesPerSample == old(bytesPerSample) && audioRate == old(audioRate)
      ensures isOpen <==> audioChannels > 0 && bytesPerSample > 0 &&
                          p + CHUNK_HEADER_SIZE + U32(d, p + 4) <= |d|
      ensures isOpen ==>
        audioBuffer[..] == d[p + CHUNK_HEADER_SIZE..p + CHUNK_HEADER_SIZE + U32(d, p + 4)] &&
        numSamples == NumSamples(U32(d, p + 4), audioChannels, bytesPerSample) &&
        length == LengthOf(numSamples, audioRate)
      ensures !isOpen ==> audioBuffer == null
    {
      var size := U32(d, p + 4);
      if audioChannels == 0 || bytesPerSample == 0 {
        Cleanup();
        return;
      }
      audioBufferSize := size;
      numSamples := NumSamples(size, audioChannels, bytesPerSample);
      length := LengthOf(numSamples, audioRate);
      audioBuffer := new byte[size];
      if p + CHUNK_HEADER_SIZE + size > |d| {
        Cleanup();
        return;
      }
      CopyIn(audioBuffer, d, p + CHUNK_HEADER_SIZE);
      isOpen := true;
    }

    /** The fixed reads: RIFF header, WAVE type, fmt header, and the format record with type PCM. */
    method ReadPreamble(d: seq<byte>) returns (ok: bool)
      ensures ok <==> Preamble(d)
    {
      if |d| < CHUNK_HEADER_SIZE || d[0..4] != RIFF {
        return false;
      }
      if |d| < 12 || d[8..12] != WAVE {
        return false;
      }
      if |d| < 20 || d[12..16] != FMT {
        return false;
      }
      if |d| < AFTER_FORMAT || U16(d, 20) != PCM {
        return false;
      }
      ok := true;
    }

    /**
     * The search for the "data" chunk: read a chunk header; a "data" chunk
     * ends the search, any other is stepped over by its size and the next
     * header read, until a header no longer fits in the file.
     */
    method SeekDataChunk(d: seq<byte>) returns (found: bool, p: nat)
      ensures found <==> FindData(d, AFTER_FORMAT).Some?
      ensures found ==> FindData(d, AFTER_FORMAT) == Some(p)
    {
      p := AFTER_FORMAT;
      var ok := p + CHUNK_HEADER_SIZE <= |d|;
      found := false;
      while ok
        invariant FindData(d, AFTER_FORMAT) == FindData(d, p)
        invariant ok <==> p + CHUNK_HEADER_SIZE <= |d|
        decreases if p <= |d| then |d| - p else 0
      {
        if ChunkId(d, p) == DATA {
          found := true;
          return;
        }
        p := p + CHUNK_HEADER_SIZE + U32(d, p + 4);
        ok := p + CHUNK_HEADER_SIZE <= |d|;
      }
    }

    /**
     * seek(t): while open and holding at least one frame, move to
     * length * rate cut to 16 bits, at most the last frame.  The requested
     * time plays no part.  With a rate of 0 the product is infinity times
     * 0, a NaN, whose conversion to PN_uint16 C++ leaves undefined; the
     * model then takes frame 0, and promises only that the clamp keeps the
     * cursor on a frame.
     */
    method Seek(t: real)
      requires Valid()
      modifies this`samplesRead
      ensures Valid()
      ensures !(isOpen && numSamples >= 1) ==> samplesRead == old(samplesRead)
      ensures isOpen && numSamples >= 1 && audioRate > 0 ==> samplesRead == SeekTarget(numSamples)
      ensures isOpen && numSamples >= 1 ==> samplesRead < numSamples && samplesRead < 0x1_0000
    {
      if isOpen {
        if numSamples < 1 {
          return;
        }
        if !length.Finite? {
          samplesRead := 0;
          return;
        }
        var product := length.value * audioRate as real;
        assert product == numSamples as real;
        var desired := TruncU16(product);
        if desired > numSamples - 1 {
          desired := numSamples - 1;
        }
        samplesRead := desired;
      }
    }

    /**
     * read_samples(n, data): on an open cursor, hand out up to n frames of
     * interleaved samples from the current frame on, never past the last
     * frame: output sample i is buffer sample samplesRead * channels + i.
     * With a sample width other than 1 or 2 bytes the first frame due makes
     * the cursor clean up instead.
     */
    method ReadSamples(n: int, data: array<int>)
      requires Valid()
      requires isOpen && n > 0 ==> n * audioChannels <= data.Length
      modifies this`samplesRead, this`isOpen, this`audioBuffer, this`audioBufferSize, data
      ensures Valid()
      ensures !old(isOpen) ==> samplesRead == old(samplesRead) && !isOpen && data[..] == old(data[..])
      ensures old(isOpen) && (bytesPerSample == 1 || bytesPerSample == 2) ==>
        var k := FramesRead(n, numSamples - old(samplesRead));
        isOpen && samplesRead == old(samplesRead) + k && audioBuffer == old(audioBuffer) &&
        Delivered(data[..], old(data[..]), audioBuffer[..], bytesPerSample, old(samplesRead) * audioChannels, k * audioChannels)
      ensures old(isOpen) && !(bytesPerSample == 1 || bytesPerSample == 2) ==>
        data[..] == old(data[..]) &&
        if FramesRead(n, numSamples - old(samplesRead)) > 0 then !isOpen && samplesRead == 0 && audioBuffer == null
        else isOpen && samplesRead == old(samplesRead) && audioBuffer == old(audioBuffer)
    {
      if !isOpen {
        return;
      }
      if !(bytesPerSample == 1 || bytesPerSample == 2) {
        if n > 0 && samplesRead + 1 <= numSamples {
          Cleanup();
        }
        return;
      }
      DeliverFrames(n, data);
    }

    /** The frame loop of read_samples for a supported sample width. */
    method DeliverFrames(n: int, data: array<int>)
      requires Valid() && isOpen && (bytesPerSample == 1 || bytesPerSample == 2)
      requires n > 0 ==> n * audioChannels <= data.Length
      modifies this`samplesRead, data
      ensures Valid() && samplesRead == old(samplesRead) + FramesRead(n, numSamples - old(samplesRead))
      ensures Delivered(data[..], old(data[..]), audioBuffer[..], bytesPerSample, old(samplesRead) * audioChannels,
                        FramesRead(n, numSamples - old(samplesRead)) * audioChannels)
    {
      ghost var first := samplesRead;
      ghost var orig := data[..];
      var ch := audioChannels;
      var off := samplesRead * ch;
      NumSamplesBounds(audioBufferSize, ch, bytesPerSample);
      var s := 0;
      var base := 0;
      while s < n
        invariant Valid() && 0 <= s && samplesRead == first + s && s <= numSamples - first && (n > 0 ==> s <= n) && (n <= 0 ==> s == 0)
        invariant base == s * ch && off == first * ch
        invariant Delivered(data[..], orig, audioBuffer[..], bytesPerSample, off, base)
      {
        if samplesRead + 1 > numSamples {
          return;
        }
        MulMonotone(s + 1, n, ch);
        MulMonotone(samplesRead + 1, numSamples, ch);
        Distrib(first, s, ch);
        Distrib(s, 1, ch);
        Distrib(samplesRead, 1, ch);
        assert base + ch <= data.Length;
        assert off + base + ch <= numSamples * ch;
        assert numSamples * ch * bytesPerSample <= audioBuffer.Length;
        ReadFrame(data, audioBuffer, bytesPerSample, ch, off, base, numSamples * ch, orig);
        samplesRead := samplesRead + 1;
        s := s + 1;
        base := base + ch;
      }
    }
  }

  /**
   * One frame of read_samples: the ch samples from buffer sample
   * off + base on go to output positions base on.
   */
  method ReadFrame(data: array<int>, buf: array<byte>, bps: nat, ch: nat, off: nat, base: nat, ghost m: nat,
                   ghost orig: seq<int>)
    requires bps == 1 || bps == 2
    requires base + ch <= data.Length && off + base + ch <= m && m * bps <= buf.Length
    requires Delivered(data[..], orig, buf[..], bps, off, base)
    modifies data
    ensures Delivered(data[..], orig, buf[..], bps, off, base + ch)
  {
    for c := 0 to ch
      invariant Delivered(data[..], orig, buf[..], bps, off, base + c)
    {
      BufferHolds(buf[..], bps, m, off + base + c);
      WriteSample(data, buf, bps, off, base + c, orig);
    }
  }

  /** One sample: buffer sample off + i, converted, into output position i. */
  method WriteSample(data: array<int>, buf: array<byte>, bps: nat, off: nat, i: nat, ghost orig: seq<int>)
    requires bps == 1 || bps == 2
    requires i < data.Length && Fits(buf[..], bps, off + i)
    requires Delivered(data[..], orig, buf[..], bps, off, i)
    modifies data
    ensures Delivered(data[..], orig, buf[..], bps, off, i + 1)
  {
    var j := off + i;
    var v;
    if bps == 2 {
      v := Int16(buf[2 * j] as int + 0x100 * buf[2 * j + 1] as int);
    } else {
      v := Widen8(buf[j]);
    }
    DeliverOne(data[..], orig, buf[..], bps, off, i, v);
    data[i] := v;
  }

  /** Writing sample off + i at position i extends what has been delivered by one. */
  lemma DeliverOne(out: seq<int>, orig: seq<int>, buf: seq<byte>, bps: nat, off: nat, i: nat, v: int)
    requires bps == 1 || bps == 2
    requires i < |out| && Fits(buf, bps, off + i) && v == SampleAt(buf, bps, off + i)
    requires Delivered(out, orig, buf, bps, off, i)
    ensures Delivered(out[i := v], orig, buf, bps, off, i + 1)
  {
  }

  lemma Distrib(a: int, b: int, c: int)
    ensures a * c + b * c == (a + b) * c
  {
  }

  /** The stream read of the data chunk into the buffer, byte by byte. */
  method CopyIn(buf: array<byte>, d: seq<byte>, start: nat)
    requires start + buf.Length <= |d|
    modifies buf
    ensures buf[..] == d[start..start + buf.Length]
  {
    for k := 0 to buf.Length
      invariant forall m :: 0 <= m < k ==> buf[m] == d[start + m]
    {
      buf[k] := d[start + k];
    }
  }

  const LIST: seq<byte> := [0x4c, 0x49, 0x53, 0x54]

  /** A chunk: its id, a size below 256, and its bytes. */
  function Chunk(id: seq<byte>, size: byte, body: seq<byte>): seq<byte>
  {
    id + [size, 0, 0, 0] + body
  }

  /** The first 36 bytes of a 16-bit PCM file with the given channel count and rate (low byte, high byte). */
  function WavHeader(channels: byte, rateLo: byte, rateHi: byte, riffSize: byte): seq<byte>
  {
    RIFF + [riffSize, 0, 0, 0] + WAVE +
    Chunk(FMT, 16, [1, 0, channels, 0, rateLo, rateHi, 0, 0, 0x88, 0x58, 0x01, 0, 2, 0, 16, 0])
  }

  /** Whatever follows such a header, the preamble holds and the format is read from it. */
  lemma HeaderLayout(channels: byte, rateLo: byte, rateHi: byte, riffSize: byte, rest: seq<byte>)
    ensures Preamble(WavHeader(channels, rateLo, rateHi, riffSize) + rest)
    ensures FormatOf(WavHeader(channels, rateLo, rateHi, riffSize) + rest) == Format(channels, 2, rateLo + 0x100 * rateHi)
  {
    var d := WavHeader(channels, rateLo, rateHi, riffSize) + rest;
    assert d[0..4] == RIFF;
    assert d[8..12] == WAVE;
    assert d[12..16] == FMT;
  }

  /** A WAV file whose fmt chunk is followed by a LIST chunk and only then by the data chunk. */
  function ListBeforeData(): seq<byte>
  {
    WavHeader(1, 0x44, 0xac, 46) + (Chunk(LIST, 0, []) + Chunk(DATA, 2, [0x34, 0x12]))
  }

  /**
   * The search as written gives up on a file whose first chunk after the
   * format is not the data chunk; the corrected search steps over it and
   * the file opens: mono, 16-bit, 44100 Hz, two data bytes.
   */
  lemma ListChunkSkipped()
    ensures FindDataAsWritten(ListBeforeData(), AFTER_FORMAT) == None
    ensures FindData(ListBeforeData(), AFTER_FORMAT) == Some(44)
    ensures ParseWav(ListBeforeData()) == Some(Wav(Format(1, 2, 44100), 52, 2))
  {
    ListChunkSearch();
    HeaderLayout(1, 0x44, 0xac, 46, Chunk(LIST, 0, []) + Chunk(DATA, 2, [0x34, 0x12]));
    assert U32(ListBeforeData(), 48) == 2;
  }

  lemma ListChunkSearch()
    ensures FindDataAsWritten(ListBeforeData(), AFTER_FORMAT) == None
    ensures FindData(ListBeforeData(), AFTER_FORMAT) == Some(44)
  {
    var d := ListBeforeData();
    assert ChunkId(d, 36) == LIST;
    assert U32(d, 40) == 0;
    assert ChunkId(d, 44) == DATA;
    assert FindData(d, 44) == Some(44);
  }

  /** A WAV file that declares zero channels. */
  function ZeroChannels(): seq<byte>
  {
    WavHeader(0, 0x44, 0xac, 38) + Chunk(DATA, 2, [0x34, 0x12])
  }

  /**
   * A file with zero channels passes every check of the constructor as
   * written and reaches num_samples, whose division has no result; the
   * corrected parse refuses it.
   */
  lemma ZeroChannelsReachDivision()
    ensures Preamble(ZeroChannels()) && FindDataAsWritten(ZeroChannels(), AFTER_FORMAT) == Some(AFTER_FORMAT)
    ensures FormatOf(ZeroChannels()).channels == 0
    ensures NumSamplesAsWritten(U32(ZeroChannels(), 40), FormatOf(ZeroChannels()).channels,
                                FormatOf(ZeroChannels()).bytesPerSample).None?
    ensures ParseWav(ZeroChannels()) == None
  {
    var d := ZeroChannels();
    HeaderLayout(0, 0x44, 0xac, 38, Chunk(DATA, 2, [0x34, 0x12]));
    assert ChunkId(d, 36) == DATA;
    assert FindData(d, 36) == Some(36);
  }

  /** A mono 16-bit WAV file whose rate field is 0, with one frame of data. */
  function RateZero(): seq<byte>
  {
    WavHeader(1, 0, 0, 38) + Chunk(DATA, 2, [0x34, 0x12])
  }

  /**
   * The rate is never checked: a file whose rate is 0 opens, holding one
   * frame, and its length is +infinity.
   */
  lemma RateZeroOpens()
    ensures FormatOf(RateZero()).rate == 0
    ensures ParseWav(RateZero()) == Some(Wav(Format(1, 2, 0), 44, 2))
    ensures NumSamples(2, 1, 2) == 1 && LengthOf(1, 0) == Infinity
  {
    var d := RateZero();
    HeaderLayout(1, 0, 0, 38, Chunk(DATA, 2, [0x34, 0x12]));
    assert ChunkId(d, 36) == DATA;
    assert FindData(d, 36) == Some(36);
    assert U32(d, 40) == 2;
  }
}
