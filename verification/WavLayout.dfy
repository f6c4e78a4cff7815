/**
 The octets of internal/streamprobe/probe.go's WAV files by their offsets, apart from the functions
 that write and read them: "Waveform Audio File Format (WAVE)" of the Multimedia Programming
 Interface and Data Specifications 1.0 fixes these positions, little-endian.
 */
module WavLayout {
  import opened Prelude
  import Wav

  /** The little-endian 16-bit number at an offset. */
  function Word(data: seq<byte>, at: nat): nat
    requires at + 2 <= |data|
  {
    data[at] as int + 0x100 * data[at + 1] as int
  }

  /** The little-endian 32-bit number at an offset. */
  function Long(data: seq<byte>, at: nat): nat
    requires at + 4 <= |data|
  {
    data[at] as int + 0x100 * data[at + 1] as int + 0x1_0000 * data[at + 2] as int + 0x100_0000 * data[at + 3] as int
  }

  lemma LongOfPut(front: seq<byte>, n: int, back: seq<byte>)
    ensures Long(front + Wav.PutU32(n) + back, |front|) == n % 0x1_0000_0000
  {
    var data := front + Wav.PutU32(n) + back;
    forall k | 0 <= k < 4 ensures data[|front| + k] == Wav.PutU32(n)[k] {}
    Wav.GetPutU32(n);
  }

  lemma WordOfPut(front: seq<byte>, n: int, back: seq<byte>)
    ensures Word(front + Wav.PutU16(n) + back, |front|) == n % 0x1_0000
  {
    var data := front + Wav.PutU16(n) + back;
    forall k | 0 <= k < 2 ensures data[|front| + k] == Wav.PutU16(n)[k] {}
    Wav.GetPutU16(n);
  }

  /** The sixteen octets of the format chunk. */
  lemma FormatLayout(rate: int)
    ensures var f := Wav.FormatChunk(rate);
      && Word(f, 0) == 1 && Word(f, 2) == 1 && Long(f, 4) == rate % 0x1_0000_0000
      && Long(f, 8) == (2 * rate) % 0x1_0000_0000 && Word(f, 12) == 2 && Word(f, 14) == 16
  {
    var a, b, c, d := Wav.PutU16(1), Wav.PutU32(rate), Wav.PutU32(2 * rate), Wav.PutU16(2);
    var z := Wav.PutU16(16);
    var f := Wav.FormatChunk(rate);
    assert f == [] + a + (a + b + c + d + z);
    WordOfPut([], 1, a + b + c + d + z);
    assert f == a + a + (b + c + d + z);
    WordOfPut(a, 1, b + c + d + z);
    assert f == (a + a) + b + (c + d + z);
    LongOfPut(a + a, rate, c + d + z);
    assert f == (a + a + b) + c + (d + z);
    LongOfPut(a + a + b, 2 * rate, d + z);
    assert f == (a + a + b + c) + d + z;
    WordOfPut(a + a + b + c, 2, z);
    assert f == (a + a + b + c + d) + z + [];
    WordOfPut(a + a + b + c + d, 16, []);
  }

  /** The octets before the format chunk's payload. */
  lemma HeadLayout(size: int)
    ensures var h := Wav.RiffHeader(size) + Wav.ChunkHeader(Wav.FMT, 16);
      && |h| == 20 && h[..4] == [82, 73, 70, 70] && Long(h, 4) == size % 0x1_0000_0000
      && h[8..16] == [87, 65, 86, 69, 102, 109, 116, 32] && Long(h, 16) == 16
  {
    var h := Wav.RiffHeader(size) + Wav.ChunkHeader(Wav.FMT, 16);
    assert h == Wav.RIFF + Wav.PutU32(size) + (Wav.WAVE + Wav.FMT + Wav.PutU32(16));
    LongOfPut(Wav.RIFF, size, Wav.WAVE + Wav.FMT + Wav.PutU32(16));
    assert h == (Wav.RIFF + Wav.PutU32(size) + Wav.WAVE + Wav.FMT) + Wav.PutU32(16) + [];
    LongOfPut(Wav.RIFF + Wav.PutU32(size) + Wav.WAVE + Wav.FMT, 16, []);
  }

  /** The three parts of a written file before its samples. */
  lemma WrittenParts(rate: int, pcm: seq<byte>) returns (h: seq<byte>, f: seq<byte>, d: seq<byte>)
    ensures Wav.Written(rate, pcm) == h + f + d + pcm
    ensures h == Wav.RiffHeader(36 + |pcm|) + Wav.ChunkHeader(Wav.FMT, 16) && f == Wav.FormatChunk(rate)
    ensures |d| == 8 && d[..4] == [100, 97, 116, 97] && Long(d, 4) == |pcm| % 0x1_0000_0000
  {
    h, f := Wav.RiffHeader(36 + |pcm|) + Wav.ChunkHeader(Wav.FMT, 16), Wav.FormatChunk(rate);
    d := Wav.ChunkHeader(Wav.DATA, |pcm|);
    assert d == Wav.DATA + Wav.PutU32(|pcm|) + [];
    LongOfPut(Wav.DATA, |pcm|, []);
  }

  /** Every octet of a written file: "RIFF", the size of what follows it, "WAVE" and "fmt ", a format
      chunk of 16 octets for one channel of 16-bit PCM with two octets a sample, "data" and its
      size, and the samples. Sizes and rates wrap at 2^32. */
  lemma WrittenLayout(rate: int, pcm: seq<byte>)
    ensures var w := Wav.Written(rate, pcm);
      && |w| == 44 + |pcm|
      && w[..4] == [82, 73, 70, 70] && Long(w, 4) == (|w| - 8) % 0x1_0000_0000
      && w[8..16] == [87, 65, 86, 69, 102, 109, 116, 32] && Long(w, 16) == 16
      && Word(w, 20) == 1 && Word(w, 22) == 1
      && Long(w, 24) == rate % 0x1_0000_0000 && Long(w, 28) == (2 * rate) % 0x1_0000_0000
      && Word(w, 32) == 2 && Word(w, 34) == 16
      && w[36..40] == [100, 97, 116, 97] && Long(w, 40) == |pcm| % 0x1_0000_0000
      && w[44..] == pcm
  {
    var h, f, d := WrittenParts(rate, pcm);
    HeadLayout(36 + |pcm|);
    FormatLayout(rate);
    PartsLayout(h, f, d, pcm);
  }

  lemma PartsLayout(h: seq<byte>, f: seq<byte>, d: seq<byte>, pcm: seq<byte>)
    requires |h| == 20 && |f| == 16 && |d| == 8
    ensures var w := h + f + d + pcm;
      && w[..4] == h[..4] && Long(w, 4) == Long(h, 4) && w[8..16] == h[8..16] && Long(w, 16) == Long(h, 16)
      && Word(w, 20) == Word(f, 0) && Word(w, 22) == Word(f, 2) && Long(w, 24) == Long(f, 4)
      && Long(w, 28) == Long(f, 8) && Word(w, 32) == Word(f, 12) && Word(w, 34) == Word(f, 14)
      && w[36..40] == d[..4] && Long(w, 40) == Long(d, 4) && w[44..] == pcm
  {
    var w := h + f + d + pcm;
    forall k | 0 <= k < 20 ensures w[k] == h[k] {}
    forall k | 0 <= k < 16 ensures w[20 + k] == f[k] {}
    forall k | 0 <= k < 8 ensures w[36 + k] == d[k] {}
    forall k | 0 <= k < 4 ensures w[36..40][k] == d[..4][k] {}
  }

  /** A format chunk is read by position, whatever it holds: it must be PCM of at least 16 octets,
      and then gives the channels, the rate and the bits, and keeps the samples found before. */
  lemma FormatIsReadByPosition(scan: Wav.Scan, chunk: seq<byte>)
    ensures Wav.Absorb(scan, [102, 109, 116, 32], chunk) ==
      if |chunk| < 16 || Word(chunk, 0) != 1 then Err(Wav.NotPcm)
      else Ok(Wav.Scan(Wav.Audio(Long(chunk, 4), Word(chunk, 2), Word(chunk, 14), scan.audio.pcm), true))
  {
  }
}
