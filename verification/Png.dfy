/** PNG files as the Teams icon encoder lays them out: chunks, scanlines, and the decoder that undoes them. */
module Png {
  import opened Crc32
  import opened Numbers
  import opened Wrappers

  /** writeUInt32BE takes values below this bound and throws on the others. */
  const UINT32_LIMIT: nat := 0x1_0000_0000

  const SIGNATURE: Bytes := [0x89, 0x50, 0x4e, 0x47, 0x0d, 0x0a, 0x1a, 0x0a]
  const IHDR: Bytes := [73, 72, 68, 82]
  const IDAT: Bytes := [73, 68, 65, 84]
  const IEND: Bytes := [73, 69, 78, 68]

  function BigEndian(n: nat): (b: Bytes)
    requires n < UINT32_LIMIT
    ensures |b| == 4
  {
    [n / 0x1_000_000, n / 0x10000 % 0x100, n / 0x100 % 0x100, n % 0x100]
  }

  function FromBigEndian(b: Bytes): (n: nat)
    requires |b| == 4
    ensures n < UINT32_LIMIT
  {
    (b[0] as int) * 0x1_000_000 + (b[1] as int) * 0x10000 + (b[2] as int) * 0x100 + b[3]
  }

  lemma {:induction false} BigEndianRoundTrip(n: nat)
    requires n < UINT32_LIMIT
    ensures FromBigEndian(BigEndian(n)) == n
  {
    assert n / 0x100 / 0x100 == n / 0x10000;
    assert n / 0x10000 / 0x100 == n / 0x1_000_000;
  }

  lemma {:induction false} FromBigEndianRoundTrip(b: Bytes)
    requires |b| == 4
    ensures BigEndian(FromBigEndian(b)) == b
  {
    var n := FromBigEndian(b);
    assert n / 0x100 == (b[0] as int) * 0x10000 + (b[1] as int) * 0x100 + b[2];
    assert n / 0x10000 == (b[0] as int) * 0x100 + b[1];
  }

  // ----- chunks -----

  /** The layout does not depend on which checksum closes a chunk. */
  type Checksum = Bytes -> Word

  /** Length, type, data and checksum (section 3.2 of RFC 2083). */
  function Chunk(sum: Checksum, name: Bytes, data: Bytes): Bytes
    requires |data| < UINT32_LIMIT
  {
    BigEndian(|data|) + (name + data) + BigEndian(sum(name + data))
  }

  datatype Content = Content(name: Bytes, data: Bytes)

  datatype Parsed = Parsed(content: Content, rest: Bytes)

  /** Reads one chunk off the front of a stream; fails on a short stream or a wrong checksum. */
  function ParseChunk(sum: Checksum, s: Bytes): Option<Parsed> {
    if |s| < 12 then None else
    var length := FromBigEndian(s[..4]);
    if |s| < 12 + length then None else
    var body := s[4..8 + length];
    if FromBigEndian(s[8 + length..12 + length]) != sum(body) then None else
    Some(Parsed(Content(body[..4], body[4..]), s[12 + length..]))
  }

  method EncodeChunk(table: array<Word>, name: Bytes, data: Bytes) returns (chunk: Option<Bytes>)
    requires IsCrcTable(table[..])
    ensures chunk == if |data| < UINT32_LIMIT then Some(Chunk(Crc, name, data)) else None
  {
    if |data| >= UINT32_LIMIT {
      return None;
    }
    var len := BigEndian(|data|);
    var crc := ComputeCrc(table, name + data);
    var crcBuf := BigEndian(crc);
    chunk := Some(len + (name + data) + crcBuf);
  }

  lemma {:induction false} StreamParts(len: Bytes, body: Bytes, crc: Bytes, rest: Bytes)
    requires |len| == 4 && |crc| == 4
    ensures var s := len + body + crc + rest;
            && s[..4] == len && s[4..4 + |body|] == body
            && s[4 + |body|..8 + |body|] == crc && s[8 + |body|..] == rest
  {
  }

  /** A chunk at the front of a stream is read back as its type and data. */
  lemma {:induction false} ChunkParses(sum: Checksum, name: Bytes, data: Bytes, rest: Bytes)
    requires |name| == 4 && |data| < UINT32_LIMIT
    ensures ParseChunk(sum, Chunk(sum, name, data) + rest) == Some(Parsed(Content(name, data), rest))
  {
    var body := name + data;
    BigEndianRoundTrip(|data|);
    BigEndianRoundTrip(sum(body));
    StreamParts(BigEndian(|data|), body, BigEndian(sum(body)), rest);
    assert body[..4] == name && body[4..] == data;
  }

  /** What parses as a chunk is the chunk of that type and data: the layout is unambiguous. */
  lemma {:induction false} ParsedIsChunk(sum: Checksum, s: Bytes, name: Bytes, data: Bytes, rest: Bytes)
    requires ParseChunk(sum, s) == Some(Parsed(Content(name, data), rest))
    ensures |name| == 4 && |data| < UINT32_LIMIT
    ensures s == Chunk(sum, name, data) + rest
  {
    var length := FromBigEndian(s[..4]);
    var body, crc := s[4..8 + length], s[8 + length..12 + length];
    FromBigEndianRoundTrip(s[..4]);
    FromBigEndianRoundTrip(crc);
    assert name + data == body;
    FourParts(s, length);
  }

  lemma {:induction false} FourParts(s: Bytes, length: nat)
    requires 12 + length <= |s|
    ensures s == s[..4] + s[4..8 + length] + s[8 + length..12 + length] + s[12 + length..]
  {
  }

  /** A chunk whose type or data was hit by an error burst of at most 32 bits no longer parses. */
  lemma {:induction false} CorruptChunkRejected(name: Bytes, data: Bytes, damaged: Bytes, rest: Bytes,
                             u: seq<bool>, w: seq<bool>, x: seq<bool>, v: seq<bool>)
    requires |name| == 4 && |data| < UINT32_LIMIT
    requires |damaged| == |name + data|
    requires MessageBits(name + data) == u + w + v && MessageBits(damaged) == u + x + v
    requires |w| == |x| <= 32 && w != x
    ensures ParseChunk(Crc, BigEndian(|data|) + damaged + BigEndian(Crc(name + data)) + rest) == None
  {
    BurstDetected(name + data, damaged, u, w, x, v);
    WrongSumRejected(Crc, |data|, damaged, Crc(name + data), rest);
  }

  lemma {:induction false} WrongSumRejected(sum: Checksum, length: nat, body: Bytes, crc: Word, rest: Bytes)
    requires length < UINT32_LIMIT && |body| == length + 4 && sum(body) != crc
    ensures ParseChunk(sum, BigEndian(length) + body + BigEndian(crc) + rest) == None
  {
    BigEndianRoundTrip(length);
    BigEndianRoundTrip(crc);
    StreamParts(BigEndian(length), body, BigEndian(crc), rest);
  }

  // ----- scanlines -----

  /** The offset of row y when each row takes size bytes: y * size, by addition. */
  function RowStart(y: nat, size: nat): nat {
    if y == 0 then 0 else RowStart(y - 1, size) + size
  }

  lemma {:induction false} RowStartIsProduct(y: nat, size: nat)
    ensures RowStart(y, size) == y * size
  {
    if y > 0 { RowStartIsProduct(y - 1, size); }
  }

  lemma {:induction false} RowStartMonotone(y: nat, h: nat, size: nat)
    requires y <= h
    ensures RowStart(y, size) <= RowStart(h, size)
  {
    if y < h { RowStartMonotone(y, h - 1, size); }
  }

  /** The first h rows, each behind a filter byte 0. */
  function Scanlines(pixels: Bytes, rowBytes: nat, h: nat): (raw: Bytes)
    requires RowStart(h, rowBytes) <= |pixels|
    ensures |raw| == RowStart(h, rowBytes + 1)
  {
    if h == 0 then [] else
    Scanlines(pixels, rowBytes, h - 1) + ([0] + pixels[RowStart(h - 1, rowBytes)..RowStart(h, rowBytes)])
  }

  /** Removes the filter bytes; fails if a row asks for another filter. */
  function Unfilter(raw: Bytes, rowBytes: nat, h: nat): Option<Bytes>
    requires |raw| == RowStart(h, rowBytes + 1)
  {
    if h == 0 then Some([]) else
    var at := RowStart(h - 1, rowBytes + 1);
    var above := Unfilter(raw[..at], rowBytes, h - 1);
    if above == None || raw[at] != 0 then None else Some(above.value + raw[at + 1..])
  }

  lemma {:induction false} UnfilterScanlines(pixels: Bytes, rowBytes: nat, h: nat)
    requires RowStart(h, rowBytes) <= |pixels|
    ensures Unfilter(Scanlines(pixels, rowBytes, h), rowBytes, h) == Some(pixels[..RowStart(h, rowBytes)])
  {
    if h > 0 {
      UnfilterScanlines(pixels, rowBytes, h - 1);
      var at, end := RowStart(h - 1, rowBytes), RowStart(h, rowBytes);
      LastRow(Scanlines(pixels, rowBytes, h - 1), pixels[at..end]);
      assert pixels[..at] + pixels[at..end] == pixels[..end];
    }
  }

  lemma {:induction false} LastRow(above: Bytes, row: Bytes)
    ensures var raw := above + ([0] + row);
            raw[..|above|] == above && raw[|above|] == 0 && raw[|above| + 1..] == row
  {
  }

  /** One row: the filter byte, then the row's pixel bytes. */
  method FillRow(raw: array<Byte>, at: nat, pixels: Bytes, from: nat, rowBytes: nat)
    requires at + rowBytes + 1 <= raw.Length && from + rowBytes <= |pixels|
    modifies raw
    ensures raw[..at + rowBytes + 1] == old(raw[..at]) + ([0] + pixels[from..from + rowBytes])
  {
    raw[at] := 0;
    for x := 0 to rowBytes
      invariant raw[..at] == old(raw[..at])
      invariant raw[at..at + 1 + x] == [0] + pixels[from..from + x]
    {
      raw[at + 1 + x] := pixels[from + x];
      assert raw[at..at + 1 + (x + 1)] == raw[at..at + 1 + x] + [pixels[from + x]];
      assert [0] + pixels[from..from + (x + 1)] == [0] + pixels[from..from + x] + [pixels[from + x]];
    }
    assert raw[..at + rowBytes + 1] == raw[..at] + raw[at..at + 1 + rowBytes];
  }

  method FilterRows(rowBytes: nat, height: nat, pixels: Bytes) returns (raw: array<Byte>)
    requires RowStart(height, rowBytes) == |pixels|
    ensures fresh(raw)
    ensures raw[..] == Scanlines(pixels, rowBytes, height)
  {
    RowStartIsProduct(height, rowBytes + 1);
    raw := new Byte[height * (rowBytes + 1)];
    for y := 0 to height
      invariant RowStart(y, rowBytes) <= |pixels| && RowStart(y, rowBytes + 1) <= raw.Length
      invariant raw[..RowStart(y, rowBytes + 1)] == Scanlines(pixels, rowBytes, y)
    {
      RowStartMonotone(y + 1, height, rowBytes);
      RowStartMonotone(y + 1, height, rowBytes + 1);
      var at, from := RowOffsets(y, rowBytes);
      FillRow(raw, at, pixels, from, rowBytes);
    }
    assert raw[..raw.Length] == raw[..];
  }

  method RowOffsets(y: nat, rowBytes: nat) returns (at: nat, from: nat)
    ensures at == RowStart(y, rowBytes + 1) && from == RowStart(y, rowBytes)
  {
    RowStartIsProduct(y, rowBytes);
    RowStartIsProduct(y, rowBytes + 1);
    at, from := y * (rowBytes + 1), y * rowBytes;
  }

  // ----- whole files -----

  /** Width, height, bit depth 8, colour type 6 (RGBA), default methods. */
  function Header(width: nat, height: nat): (h: Bytes)
    requires width < UINT32_LIMIT && height < UINT32_LIMIT
    ensures |h| == 13
  {
    BigEndian(width) + BigEndian(height) + [8, 6, 0, 0, 0]
  }

  function File(width: nat, height: nat, idat: Bytes): Bytes
    requires width < UINT32_LIMIT && height < UINT32_LIMIT && |idat| < UINT32_LIMIT
  {
    SIGNATURE + Chunk(Crc, IHDR, Header(width, height)) + Chunk(Crc, IDAT, idat) + Chunk(Crc, IEND, [])
  }

  lemma {:induction false} AllRows(width: nat, height: nat)
    ensures RowStart(height, width * 4) == width * height * 4
  {
    RowStartIsProduct(height, width * 4);
    assert height * (width * 4) == width * height * 4;
  }

  /** deflate stands for zlib.deflateSync. */
  method EncodePng(table: array<Word>, width: nat, height: nat, pixels: Bytes, deflate: Bytes -> Bytes)
    returns (file: Option<Bytes>)
    requires IsCrcTable(table[..])
    requires |pixels| == width * height * 4
    ensures RowStart(height, width * 4) == |pixels|
    ensures var idat := deflate(Scanlines(pixels, width * 4, height));
            file == if width < UINT32_LIMIT && height < UINT32_LIMIT && |idat| < UINT32_LIMIT
                    then Some(File(width, height, idat)) else None
  {
    AllRows(width, height);
    if width >= UINT32_LIMIT || height >= UINT32_LIMIT {
      return None;
    }
    var ihdr := BigEndian(width) + BigEndian(height) + [8, 6, 0, 0, 0];
    var raw := FilterRows(width * 4, height, pixels);
    var idat := deflate(raw[..]);
    var ihdrChunk := EncodeChunk(table, IHDR, ihdr);
    var idatChunk := EncodeChunk(table, IDAT, idat);
    var iendChunk := EncodeChunk(table, IEND, []);
    if idatChunk == None {
      return None;
    }
    file := Some(SIGNATURE + ihdrChunk.value + idatChunk.value + iendChunk.value);
  }

  function ReadHeader(header: Bytes): Option<(nat, nat)> {
    if |header| != 13 || header[8..] != [8, 6, 0, 0, 0] then None
    else Some((FromBigEndian(header[..4]), FromBigEndian(header[4..8])))
  }

  function ReadPixels(size: (nat, nat), raw: Bytes): Option<Bytes> {
    if |raw| != RowStart(size.1, size.0 * 4 + 1) then None else Unfilter(raw, size.0 * 4, size.1)
  }

  /** The chunks of a stream, until one fails to parse or the stream ends. */
  function ParseChunks(sum: Checksum, s: Bytes): Option<seq<Content>>
    decreases |s|
  {
    if s == [] then Some([]) else
    var first := ParseChunk(sum, s);
    if first == None then None else
    var others := ParseChunks(sum, first.value.rest);
    if others == None then None else Some([first.value.content] + others.value)
  }

  /** Reads a file of this shape: the signature and three chunks. */
  function Decode(file: Bytes, inflate: Bytes -> Bytes): Option<((nat, nat), Bytes)> {
    if |file| < 8 || file[..8] != SIGNATURE then None else
    var chunks := ParseChunks(Crc, file[8..]);
    if chunks == None || |chunks.value| != 3 then None else
    var c := chunks.value;
    if c[0].name != IHDR || c[1].name != IDAT || c[2] != Content(IEND, []) then None else
    var size := ReadHeader(c[0].data);
    if size == None then None else
    var pixels := ReadPixels(size.value, inflate(c[1].data));
    if pixels == None then None else Some((size.value, pixels.value))
  }

  ghost predicate WellFormed(chunks: seq<Content>) {
    forall c :: c in chunks ==> |c.name| == 4 && |c.data| < UINT32_LIMIT
  }

  function Stream(sum: Checksum, chunks: seq<Content>): Bytes
    requires forall c :: c in chunks ==> |c.data| < UINT32_LIMIT
  {
    if chunks == [] then [] else Chunk(sum, chunks[0].name, chunks[0].data) + Stream(sum, chunks[1..])
  }

  /** A stream of any number of chunks is read back chunk by chunk. */
  lemma {:induction false} StreamParses(sum: Checksum, chunks: seq<Content>)
    requires WellFormed(chunks)
    ensures ParseChunks(sum, Stream(sum, chunks)) == Some(chunks)
  {
    if chunks != [] {
      ChunkParses(sum, chunks[0].name, chunks[0].data, Stream(sum, chunks[1..]));
      StreamParses(sum, chunks[1..]);
      assert [chunks[0]] + chunks[1..] == chunks;
    }
  }

  lemma {:induction false} HeaderReads(width: nat, height: nat)
    requires width < UINT32_LIMIT && height < UINT32_LIMIT
    ensures ReadHeader(Header(width, height)) == Some((width, height))
  {
    var header := Header(width, height);
    assert header[..4] == BigEndian(width) && header[4..8] == BigEndian(height);
    assert header[8..] == [8, 6, 0, 0, 0];
    BigEndianRoundTrip(width);
    BigEndianRoundTrip(height);
  }

  /** Decoding an encoded image gives back its size and every pixel, whatever zlib's output looks like. */
  lemma {:induction false} DecodeEncoded(width: nat, height: nat, pixels: Bytes, deflate: Bytes -> Bytes,
        inflate: Bytes -> Bytes)
    requires width < UINT32_LIMIT && height < UINT32_LIMIT
    requires |pixels| == width * height * 4 == RowStart(height, width * 4)
    requires var raw := Scanlines(pixels, width * 4, height);
             |deflate(raw)| < UINT32_LIMIT && inflate(deflate(raw)) == raw
    ensures Decode(File(width, height, deflate(Scanlines(pixels, width * 4, height))), inflate)
            == Some(((width, height), pixels))
  {
    var idat := deflate(Scanlines(pixels, width * 4, height));
    FileChunks(Crc, Header(width, height), idat);
    HeaderReads(width, height);
    PixelsRead(width, height, pixels);
  }

  lemma {:induction false} FileChunks(sum: Checksum, header: Bytes, idat: Bytes)
    requires |header| < UINT32_LIMIT && |idat| < UINT32_LIMIT
    ensures var file := SIGNATURE + Chunk(sum, IHDR, header) + Chunk(sum, IDAT, idat) + Chunk(sum, IEND, []);
            file[..8] == SIGNATURE &&
            ParseChunks(sum, file[8..]) == Some([Content(IHDR, header), Content(IDAT, idat), Content(IEND, [])])
  {
    var chunks := [Content(IHDR, header), Content(IDAT, idat), Content(IEND, [])];
    var c1, c2, c3 := Chunk(sum, IHDR, header), Chunk(sum, IDAT, idat), Chunk(sum, IEND, []);
    SplitFile(SIGNATURE, c1, c2, c3);
    StreamOfThree(sum, chunks[0], chunks[1], chunks[2]);
    StreamParses(sum, chunks);
  }

  lemma {:induction false} StreamOfThree(sum: Checksum, a: Content, b: Content, c: Content)
    requires |a.data| < UINT32_LIMIT && |b.data| < UINT32_LIMIT && |c.data| < UINT32_LIMIT
    ensures Stream(sum, [a, b, c]) ==
            Chunk(sum, a.name, a.data) + (Chunk(sum, b.name, b.data) + (Chunk(sum, c.name, c.data) + []))
  {
    StreamCons(sum, c, []);
    StreamCons(sum, b, [c]);
    StreamCons(sum, a, [b, c]);
    assert [c] == [c] + [] && [b, c] == [b] + [c] && [a, b, c] == [a] + [b, c];
  }

  lemma {:induction false} StreamCons(sum: Checksum, a: Content, others: seq<Content>)
    requires |a.data| < UINT32_LIMIT && forall c :: c in others ==> |c.data| < UINT32_LIMIT
    ensures Stream(sum, [a] + others) == Chunk(sum, a.name, a.data) + Stream(sum, others)
  {
    assert ([a] + others)[1..] == others;
  }

  lemma {:induction false} SplitFile(lead: Bytes, c1: Bytes, c2: Bytes, c3: Bytes)
    requires |lead| == 8
    ensures var file := lead + c1 + c2 + c3;
            file[..8] == lead && file[8..] == c1 + (c2 + (c3 + []))
  {
  }

  lemma {:induction false} PixelsRead(width: nat, height: nat, pixels: Bytes)
    requires |pixels| == width * height * 4 == RowStart(height, width * 4)
    ensures ReadPixels((width, height), Scanlines(pixels, width * 4, height)) == Some(pixels)
  {
    UnfilterScanlines(pixels, width * 4, height);
    assert pixels[..|pixels|] == pixels;
  }
}
