/**
 The WAV writer and chunk reader of internal/streamprobe/probe.go, after the RIFF chunk
 format ("Resource Interchange File Format") and the "Waveform Audio File Format (WAVE)"
 of the Multimedia Programming Interface and Data Specifications 1.0.
 */
module Wav {
  import opened Prelude

  const U16: nat := 0x1_0000
  const U32: nat := 0x1_0000_0000

  /** `"RIFF"`, `"WAVE"`, `"fmt "` and `"data"`. */
  const RIFF: seq<byte> := [82, 73, 70, 70]
  const WAVE: seq<byte> := [87, 65, 86, 69]
  const FMT: seq<byte> := [102, 109, 116, 32]
  const DATA: seq<byte> := [100, 97, 116, 97]

  /* ------------------------------------------------------------------ */
  /* Little-endian numbers; conversions to uint16 and uint32 wrap       */
  /* ------------------------------------------------------------------ */

  function PutU16(n: int): (bytes: seq<byte>)
    ensures |bytes| == 2
  {
    [n % 256, n / 256 % 256]
  }

  function PutU32(n: int): (bytes: seq<byte>)
    ensures |bytes| == 4
  {
    [n % 256, n / 256 % 256, n / 65536 % 256, n / 16777216 % 256]
  }

  function GetU16(bytes: seq<byte>): (n: nat)
    requires |bytes| == 2
    ensures n < U16
  {
    bytes[0] as int + 256 * bytes[1] as int
  }

  function GetU32(bytes: seq<byte>): (n: nat)
    requires |bytes| == 4
    ensures n < U32
  {
    bytes[0] as int + 256 * bytes[1] as int + 65536 * bytes[2] as int + 16777216 * bytes[3] as int
  }

  lemma GetPutU16(n: int)
    ensures GetU16(PutU16(n)) == n % U16
  {
    assert n == n / 256 * 256 + n % 256;
    assert n / 256 == n / 256 / 256 * 256 + n / 256 % 256;
  }

  lemma GetPutU32(n: int)
    ensures GetU32(PutU32(n)) == n % U32
    ensures 0 <= n < U32 ==> GetU32(PutU32(n)) == n
  {
    var q1 := n / 256;
    var q2 := q1 / 256;
    var q3 := q2 / 256;
    assert q2 == n / 65536 && q3 == n / 16777216;
    assert n == 256 * q1 + n % 256 && q1 == 256 * q2 + q1 % 256 && q2 == 256 * q3 + q2 % 256;
    assert q3 == 256 * (q3 / 256) + q3 % 256;
    var low := n % 256 + 256 * (q1 % 256) + 65536 * (q2 % 256) + 16777216 * (q3 % 256);
    assert n == U32 * (q3 / 256) + low && 0 <= low < U32;
  }

  lemma SliceOfSlice<T>(s: seq<T>, a: nat, b: nat, i: nat, j: nat)
    requires a <= b <= |s| && i <= j <= b - a
    ensures s[a..b][i..j] == s[a + i..a + j]
  {
    forall k | 0 <= k < j - i ensures s[a..b][i..j][k] == s[a + i..a + j][k] {}
  }

  lemma Parts<T>(x: seq<T>, y: seq<T>, z: seq<T>)
    ensures (x + y + z)[..|x|] == x
    ensures (x + y + z)[|x|..|x| + |y|] == y
    ensures (x + y + z)[|x| + |y|..] == z
  {
    assert (x + y + z)[..|x|] == (x + y)[..|x|];
    assert (x + y + z)[|x|..|x| + |y|] == (x + y)[|x|..];
  }

  /* ------------------------------------------------------------------ */
  /* Reading                                                            */
  /* ------------------------------------------------------------------ */

  /** PCM16WAV; Go's nil PCM is the empty sequence, as appending nothing to nil is nil. */
  datatype Audio = Audio(rate: nat, channels: nat, bits: nat, pcm: seq<byte>)

  datatype WavError = NotWave | InvalidChunk | NotPcm | Missing

  datatype Scan = Scan(audio: Audio, formatFound: bool)

  const EMPTY: Scan := Scan(Audio(0, 0, 0, []), false)

  /** The effect of one chunk on what has been gathered. */
  function Absorb(scan: Scan, name: seq<byte>, chunk: seq<byte>): Result<Scan, WavError> {
    if name == FMT then
      if |chunk| < 16 || GetU16(chunk[..2]) != 1 then Err(NotPcm)
      else Ok(Scan(Audio(GetU32(chunk[4..8]), GetU16(chunk[2..4]), GetU16(chunk[14..16]), scan.audio.pcm), true))
    else if name == DATA then Ok(scan.(audio := scan.audio.(pcm := chunk)))
    else Ok(scan)
  }

  function Pad(size: nat): nat {
    size % 2
  }

  /** What to do with one chunk, given its name and payload. */
  type Absorber<!S> = (S, seq<byte>, seq<byte>) -> Result<S, WavError>

  /** The chunk loop from `offset` on. */
  function Walk<S>(data: seq<byte>, offset: nat, state: S, absorb: Absorber<S>): Result<S, WavError>
    decreases |data| - offset
  {
    if offset + 8 > |data| then Ok(state)
    else
      var size := GetU32(data[offset + 4..offset + 8]);
      var start := offset + 8;
      if start + size > |data| then Err(InvalidChunk)
      else
        match absorb(state, data[offset..offset + 4], data[start..start + size])
        case Err(error) => Err(error)
        case Ok(next) => Walk(data, start + size + Pad(size), next, absorb)
  }

  predicate HasHeader(data: seq<byte>) {
    |data| >= 12 && data[..4] == RIFF && data[8..12] == WAVE
  }

  function Conclude(scan: Result<Scan, WavError>): Result<Audio, WavError> {
    match scan
    case Err(error) => Err(error)
    case Ok(s) => if !s.formatFound || s.audio.rate == 0 || s.audio.pcm == [] then Err(Missing) else Ok(s.audio)
  }

  function Read(data: seq<byte>): Result<Audio, WavError> {
    if HasHeader(data) then Conclude(Walk(data, 12, EMPTY, Absorb)) else Err(NotWave)
  }

  /** The chunk loop; the switch over the chunk's name is the absorber. */
  method WalkChunks<S>(data: seq<byte>, initial: S, absorb: Absorber<S>) returns (result: Result<S, WavError>)
    requires |data| >= 12
    ensures result == Walk(data, 12, initial, absorb)
  {
    var state := initial;
    var offset := 12;
    while offset + 8 <= |data|
      invariant Walk(data, offset, state, absorb) == Walk(data, 12, initial, absorb)
      decreases |data| - offset
    {
      var name := data[offset..offset + 4];
      var size := GetU32(data[offset + 4..offset + 8]);
      offset := offset + 8;
      if offset + size > |data| {
        return Err(InvalidChunk);
      }
      var absorbed := absorb(state, name, data[offset..offset + size]);
      if absorbed.Err? {
        return Err(absorbed.error);
      }
      state := absorbed.value;
      offset := offset + size;
      if size % 2 != 0 {
        offset := offset + 1;
      }
    }
    return Ok(state);
  }

  /** `ReadPCM16WAV` on the bytes of the file: on every input the loop ends and every
      index is in range. */
  method ReadPCM16WAV(data: seq<byte>) returns (result: Result<Audio, WavError>)
    ensures result == Read(data)
  {
    if |data| < 12 || data[..4] != RIFF || data[8..12] != WAVE {
      return Err(NotWave);
    }
    var walked := WalkChunks(data, EMPTY, Absorb);
    if walked.Err? {
      return Err(walked.error);
    }
    var scan := walked.value;
    if !scan.formatFound || scan.audio.rate == 0 || scan.audio.pcm == [] {
      return Err(Missing);
    }
    return Ok(scan.audio);
  }

  /* ------------------------------------------------------------------ */
  /* Writing                                                            */
  /* ------------------------------------------------------------------ */

  function FormatChunk(rate: int): (chunk: seq<byte>)
    ensures |chunk| == 16
  {
    PutU16(1) + PutU16(1) + PutU32(rate) + PutU32(rate * 2) + PutU16(2) + PutU16(16)
  }

  function RiffHeader(size: int): (header: seq<byte>)
    ensures |header| == 12
  {
    RIFF + PutU32(size) + WAVE
  }

  function ChunkHeader(name: seq<byte>, size: int): (header: seq<byte>)
    ensures |header| == |name| + 4
  {
    name + PutU32(size)
  }

  /** What `WritePCM16WAV` writes: no padding byte follows an odd payload. */
  function Written(rate: int, pcm: seq<byte>): seq<byte> {
    RiffHeader(36 + |pcm|) + (ChunkHeader(FMT, 16) + FormatChunk(rate) + (ChunkHeader(DATA, |pcm|) + pcm))
  }

  method WritePCM16WAV(rate: int, pcm: seq<byte>) returns (output: seq<byte>)
    ensures output == Written(rate, pcm)
  {
    var header := RIFF;
    header := header + PutU32(36 + |pcm|);
    header := header + WAVE + FMT;
    header := header + PutU32(16);
    header := header + PutU16(1);
    header := header + PutU16(1);
    header := header + PutU32(rate);
    header := header + PutU32(rate * 2);
    header := header + PutU16(2);
    header := header + PutU16(16);
    header := header + DATA;
    header := header + PutU32(|pcm|);
    output := header + pcm;
  }

  /* ------------------------------------------------------------------ */
  /* Chunk lists: what the reader makes of any well-formed RIFF file    */
  /* ------------------------------------------------------------------ */

  datatype Chunk = Chunk(name: seq<byte>, payload: seq<byte>)

  predicate ValidChunk(c: Chunk) {
    |c.name| == 4 && |c.payload| < U32
  }

  function PutBare(c: Chunk): (bytes: seq<byte>)
    ensures |bytes| == |c.name| + 4 + |c.payload|
  {
    c.name + PutU32(|c.payload|) + c.payload
  }

  /** A chunk in a file: name, size, payload and, after an odd payload, a pad byte. */
  function PutChunk(c: Chunk, padded: bool): seq<byte> {
    PutBare(c) + if padded && |c.payload| % 2 == 1 then [0] else []
  }

  /** The chunks of a file, of which the last may lack its pad byte. */
  function PutChunks(chunks: seq<Chunk>, padLast: bool): seq<byte> {
    if chunks == [] then [] else PutChunk(chunks[0], padLast || |chunks| > 1) + PutChunks(chunks[1..], padLast)
  }

  /** The meaning of a chunk list, independent of bytes and offsets. */
  function Meaning<S>(state: S, chunks: seq<Chunk>, absorb: Absorber<S>): Result<S, WavError>
    decreases |chunks|
  {
    if chunks == [] then Ok(state)
    else
      match absorb(state, chunks[0].name, chunks[0].payload)
      case Err(error) => Err(error)
      case Ok(next) => Meaning(next, chunks[1..], absorb)
  }

  /** A chunk lies at `offset`. */
  predicate ChunkAt(data: seq<byte>, offset: nat, c: Chunk) {
    && offset + 8 + |c.payload| <= |data|
    && data[offset..offset + 4] == c.name
    && GetU32(data[offset + 4..offset + 8]) == |c.payload|
    && data[offset + 8..offset + 8 + |c.payload|] == c.payload
  }

  lemma PutChunkAt(data: seq<byte>, offset: nat, c: Chunk)
    requires ValidChunk(c) && offset + 8 + |c.payload| <= |data|
    requires data[offset..offset + 8 + |c.payload|] == c.name + PutU32(|c.payload|) + c.payload
    ensures ChunkAt(data, offset, c)
  {
    var n := 8 + |c.payload|;
    Parts(c.name, PutU32(|c.payload|), c.payload);
    SliceOfSlice(data, offset, offset + n, 0, 4);
    SliceOfSlice(data, offset, offset + n, 4, 8);
    SliceOfSlice(data, offset, offset + n, 8, n);
    GetPutU32(|c.payload|);
  }

  /** One chunk in the file, read at its offset. */
  lemma WalkOneChunk<S>(data: seq<byte>, offset: nat, c: Chunk, state: S, absorb: Absorber<S>)
    requires ChunkAt(data, offset, c)
    ensures Walk(data, offset, state, absorb) ==
              match absorb(state, c.name, c.payload)
              case Err(error) => Err(error)
              case Ok(next) => Walk(data, offset + 8 + |c.payload| + Pad(|c.payload|), next, absorb)
  {
  }

  lemma Tails<T>(data: seq<T>, offset: nat, front: seq<T>, back: seq<T>)
    requires offset <= |data| && data[offset..] == front + back
    ensures offset + |front| <= |data|
    ensures data[offset..offset + |front|] == front && data[offset + |front|..] == back
  {
    assert data[offset..offset + |front|] == data[offset..][..|front|];
    assert data[offset + |front|..] == data[offset..][|front|..];
  }

  lemma FirstChunkAt(data: seq<byte>, offset: nat, c: Chunk, padded: bool, rest: seq<byte>)
    requires offset <= |data| && data[offset..] == PutChunk(c, padded) + rest && ValidChunk(c)
    ensures ChunkAt(data, offset, c)
    ensures padded ==> offset + 8 + |c.payload| + Pad(|c.payload|) <= |data|
                       && data[offset + 8 + |c.payload| + Pad(|c.payload|)..] == rest
    ensures rest == [] ==> |data| <= offset + 8 + |c.payload| + Pad(|c.payload|)
  {
    Tails(data, offset, PutChunk(c, padded), rest);
    var pad := if padded && |c.payload| % 2 == 1 then [0] else [];
    assert data[offset..] == PutBare(c) + (pad + rest);
    Tails(data, offset, PutBare(c), pad + rest);
    PutChunkAt(data, offset, c);
  }

  /** Past the last chunk the walk is over. */
  lemma WalkEnds<S>(data: seq<byte>, offset: nat, state: S, absorb: Absorber<S>)
    requires |data| <= offset
    ensures Walk(data, offset, state, absorb) == Ok(state)
  {
  }

  /** Walking any list of well-formed chunks gives its meaning. */
  lemma {:induction false} WalkIsMeaning<S>(
      data: seq<byte>, offset: nat, chunks: seq<Chunk>, padLast: bool, state: S, absorb: Absorber<S>)
    requires offset <= |data| && data[offset..] == PutChunks(chunks, padLast)
    requires forall i | 0 <= i < |chunks| :: ValidChunk(chunks[i])
    ensures Walk(data, offset, state, absorb) == Meaning(state, chunks, absorb)
    decreases |chunks|, 1
  {
    if chunks == [] {
      WalkEnds(data, offset, state, absorb);
    } else {
      var c, rest := chunks[0], chunks[1..];
      FirstChunkAt(data, offset, c, padLast || |chunks| > 1, PutChunks(rest, padLast));
      var absorbed := absorb(state, c.name, c.payload);
      if absorbed.Ok? {
        WalkRest(data, offset + 8 + |c.payload| + Pad(|c.payload|), rest, padLast, absorbed.value, absorb);
      }
      WalkOneChunk(data, offset, c, state, absorb);
    }
  }

  /** The rest of the chunks, or the end after a last chunk without its pad byte. */
  lemma {:induction false} WalkRest<S>(
      data: seq<byte>, offset: nat, rest: seq<Chunk>, padLast: bool, state: S, absorb: Absorber<S>)
    requires forall i | 0 <= i < |rest| :: ValidChunk(rest[i])
    requires if rest == [] then |data| <= offset else offset <= |data| && data[offset..] == PutChunks(rest, padLast)
    ensures Walk(data, offset, state, absorb) == Meaning(state, rest, absorb)
    decreases |rest|, 2
  {
    if rest == [] {
      WalkEnds(data, offset, state, absorb);
    } else {
      WalkIsMeaning(data, offset, rest, padLast, state, absorb);
    }
  }

  lemma {:induction false} MeaningSkips<S>(state: S, front: seq<Chunk>, extra: Chunk, back: seq<Chunk>,
      absorb: Absorber<S>)
    requires forall s: S :: absorb(s, extra.name, extra.payload) == Ok(s)
    ensures Meaning(state, front + [extra] + back, absorb) == Meaning(state, front + back, absorb)
    decreases |front|
  {
    if front == [] {
      assert (front + [extra] + back)[1..] == back && front + back == back;
    } else {
      assert (front + [extra] + back)[1..] == front[1..] + [extra] + back;
      assert (front + back)[1..] == front[1..] + back;
      var absorbed := absorb(state, front[0].name, front[0].payload);
      if absorbed.Ok? {
        MeaningSkips(absorbed.value, front[1..], extra, back, absorb);
      }
    }
  }

  lemma RiffHeaderIsHeader(size: int, rest: seq<byte>)
    ensures HasHeader(RiffHeader(size) + rest)
  {
    var data := RiffHeader(size) + rest;
    Parts(RIFF, PutU32(size), WAVE);
    assert data[..4] == RiffHeader(size)[..4] && data[8..12] == RiffHeader(size)[8..];
  }

  /** Reading a well-formed file gives the meaning of its chunks, whatever they are. */
  lemma ReadIsMeaning(size: int, chunks: seq<Chunk>, padLast: bool)
    requires forall i | 0 <= i < |chunks| :: ValidChunk(chunks[i])
    ensures Read(RiffHeader(size) + PutChunks(chunks, padLast)) == Conclude(Meaning(EMPTY, chunks, Absorb))
  {
    var data := RiffHeader(size) + PutChunks(chunks, padLast);
    RiffHeaderIsHeader(size, PutChunks(chunks, padLast));
    Tails(data, 0, RiffHeader(size), PutChunks(chunks, padLast));
    WalkIsMeaning(data, 12, chunks, padLast, EMPTY, Absorb);
  }

  lemma ExtraAbsorbed(extra: Chunk)
    requires extra.name != FMT && extra.name != DATA
    ensures forall s: Scan :: Absorb(s, extra.name, extra.payload) == Ok(s)
  {
  }

  /** An unknown chunk anywhere in a file changes nothing, whether or not the last chunks of the
      two files have their pad byte. */
  lemma UnknownChunkIsIgnored(
      size: int, longer: int, front: seq<Chunk>, extra: Chunk, back: seq<Chunk>, padLast: bool, padLonger: bool)
    requires ValidChunk(extra) && extra.name != FMT && extra.name != DATA
    requires forall i | 0 <= i < |front + back| :: ValidChunk((front + back)[i])
    ensures Read(RiffHeader(longer) + PutChunks(front + [extra] + back, padLonger))
        == Read(RiffHeader(size) + PutChunks(front + back, padLast))
  {
    var more := front + [extra] + back;
    forall i | 0 <= i < |more|
      ensures ValidChunk(more[i])
    {
      assert more[i] ==
        if i < |front| then (front + back)[i] else if i == |front| then extra else (front + back)[i - 1];
    }
    ReadIsMeaning(longer, more, padLonger);
    ReadIsMeaning(size, front + back, padLast);
    ExtraAbsorbed(extra);
    MeaningSkips(EMPTY, front, extra, back, Absorb);
  }

  /* ------------------------------------------------------------------ */
  /* Round trip                                                         */
  /* ------------------------------------------------------------------ */

  /** The rate field holds the rate modulo 2^32. */
  lemma FormatIsAbsorbed(rate: int, field: nat)
    requires field == rate % U32
    ensures Absorb(EMPTY, FMT, FormatChunk(rate)) == Ok(Scan(Audio(field, 1, 16, []), true))
  {
    var chunk := FormatChunk(rate);
    assert chunk[..2] == PutU16(1) && chunk[2..4] == PutU16(1) && chunk[4..8] == PutU32(rate)
        && chunk[14..16] == PutU16(16);
    GetPutU16(1);
    GetPutU16(16);
    GetPutU32(rate);
  }

  lemma DataIsAbsorbed(scan: Scan, pcm: seq<byte>)
    ensures Absorb(scan, DATA, pcm) == Ok(scan.(audio := scan.audio.(pcm := pcm)))
  {
    assert DATA[0] != FMT[0];
  }

  /** The chunks of a written file. */
  function WrittenChunks(rate: int, pcm: seq<byte>): (chunks: seq<Chunk>)
    ensures |chunks| == 2
  {
    [Chunk(FMT, FormatChunk(rate)), Chunk(DATA, pcm)]
  }

  /** The writer writes a well-formed file whose last chunk lacks its pad byte. */
  lemma WrittenIsChunks(rate: int, pcm: seq<byte>)
    ensures Written(rate, pcm) == RiffHeader(36 + |pcm|) + PutChunks(WrittenChunks(rate, pcm), false)
  {
    var f, d := Chunk(FMT, FormatChunk(rate)), Chunk(DATA, pcm);
    assert PutChunk(f, true) == ChunkHeader(FMT, 16) + FormatChunk(rate);
    assert PutChunk(d, false) == ChunkHeader(DATA, |pcm|) + pcm;
    assert [f, d][1..] == [d] && [d][1..] == [];
    assert PutChunks([d], false) == PutChunk(d, false) + [];
  }

  lemma MeaningOfTwo<S>(state: S, a: Chunk, b: Chunk, absorb: Absorber<S>, middle: S, last: S)
    requires absorb(state, a.name, a.payload) == Ok(middle) && absorb(middle, b.name, b.payload) == Ok(last)
    ensures Meaning(state, [a, b], absorb) == Ok(last)
  {
    var two, one := [a, b], [b];
    assert two[1..] == one && one[1..] == [];
    assert Meaning(state, two, absorb) == Meaning(middle, one, absorb);
    assert Meaning(middle, one, absorb) == Meaning(last, [], absorb);
  }

  /** The meaning of a format chunk and a data chunk. */
  lemma MeaningOfAudio(format: seq<byte>, field: nat, pcm: seq<byte>)
    requires Absorb(EMPTY, FMT, format) == Ok(Scan(Audio(field, 1, 16, []), true))
    ensures Conclude(Meaning(EMPTY, [Chunk(FMT, format), Chunk(DATA, pcm)], Absorb))
         == if field == 0 || pcm == [] then Err(Missing) else Ok(Audio(field, 1, 16, pcm))
  {
    var scan := Scan(Audio(field, 1, 16, []), true);
    DataIsAbsorbed(scan, pcm);
    MeaningOfTwo(EMPTY, Chunk(FMT, format), Chunk(DATA, pcm), Absorb, scan, scan.(audio := scan.audio.(pcm := pcm)));
  }

  /** What the reader makes of a written file when the payload's size fits its field. */
  lemma ReadWritten(rate: int, field: nat, pcm: seq<byte>)
    requires |pcm| < U32 && field == rate % U32
    ensures Read(Written(rate, pcm)) == if field == 0 || pcm == [] then Err(Missing) else Ok(Audio(field, 1, 16, pcm))
  {
    WrittenIsChunks(rate, pcm);
    ReadIsMeaning(36 + |pcm|, WrittenChunks(rate, pcm), false);
    FormatIsAbsorbed(rate, field);
    MeaningOfAudio(FormatChunk(rate), field, pcm);
  }

  /** Inserting an unknown chunk into a written file, before, between or after its two chunks,
      changes nothing; an odd payload that is no longer last gets its pad byte. */
  lemma UnknownChunkInWrittenFile(rate: int, pcm: seq<byte>, extra: Chunk, at: nat, longer: int, padLonger: bool)
    requires |pcm| < U32 && ValidChunk(extra) && extra.name != FMT && extra.name != DATA && at <= 2
    ensures var chunks := WrittenChunks(rate, pcm);
      Read(RiffHeader(longer) + PutChunks(chunks[..at] + [extra] + chunks[at..], padLonger)) == Read(Written(rate, pcm))
  {
    var chunks := WrittenChunks(rate, pcm);
    assert chunks[..at] + chunks[at..] == chunks;
    WrittenIsChunks(rate, pcm);
    UnknownChunkIsIgnored(36 + |pcm|, longer, chunks[..at], extra, chunks[at..], false, padLonger);
  }

  /** No read yields more audio than a 32-bit chunk size can announce, or a wider rate. */
  lemma {:induction false} WalkIsBounded(data: seq<byte>, offset: nat, scan: Scan)
    requires |scan.audio.pcm| < U32 && scan.audio.rate < U32
    ensures Walk(data, offset, scan, Absorb).Ok? ==>
              var audio := Walk(data, offset, scan, Absorb).value.audio;
              |audio.pcm| < U32 && audio.rate < U32
    decreases |data| - offset
  {
    if offset + 8 <= |data| {
      var size := GetU32(data[offset + 4..offset + 8]);
      var start := offset + 8;
      if start + size <= |data| {
        var absorbed := Absorb(scan, data[offset..offset + 4], data[start..start + size]);
        if absorbed.Ok? {
          WalkIsBounded(data, start + size + Pad(size), absorbed.value);
        }
      }
    }
  }

  lemma ReadIsBounded(data: seq<byte>)
    requires Read(data).Ok?
    ensures 0 < Read(data).value.rate < U32 && 0 < |Read(data).value.pcm| < U32
  {
    WalkIsBounded(data, 12, EMPTY);
  }

  lemma UnreadableAudio(data: seq<byte>, audio: Audio)
    requires audio.rate == 0 || audio.rate >= U32 || audio.pcm == [] || |audio.pcm| >= U32
    ensures Read(data) != Ok(audio)
  {
    if Read(data).Ok? {
      ReadIsBounded(data);
    }
  }

  lemma SmallRate(rate: nat)
    requires rate < U32
    ensures rate == rate % U32
  {
  }

  /** Reading what was written returns the same rate, one channel, 16 bits and the same
      bytes, odd lengths included, exactly when the rate is in 1..2^32-1 and the payload
      is neither empty nor too long for its size field. */
  lemma RoundTrip(rate: nat, pcm: seq<byte>)
    ensures Read(Written(rate, pcm)) == Ok(Audio(rate, 1, 16, pcm)) <==> 0 < rate < U32 && 0 < |pcm| < U32
  {
    if 0 < rate < U32 && 0 < |pcm| < U32 {
      SmallRate(rate);
      ReadWritten(rate, rate, pcm);
    } else {
      UnreadableAudio(Written(rate, pcm), Audio(rate, 1, 16, pcm));
    }
  }
}
