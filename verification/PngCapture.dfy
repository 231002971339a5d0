/**
 * The PNG capture validator as a whole: upload tests, header table, chunk walk, decoder limit
 * and streaming check (apps/api/src/attachments/preview-capture-validation.ts).
 * The inflater is a parameter: for the compressed parts it gives the chunks it delivers, whether
 * it then fails, and how many compressed bytes it consumed.
 */
module PngCapture {
  import opened Common
  import opened PngChunks
  import opened PngWalk
  import opened PngScanlines

  const MAX_CAPTURE_BYTES := 5 * 1024 * 1024
  const MAX_DIMENSION := 4096
  const MAX_ACTIVE_DECODERS := 2
  const SIGNATURE: Bytes := [0x89, 0x50, 0x4e, 0x47, 0x0d, 0x0a, 0x1a, 0x0a]

  datatype Upload = Upload(mimeType: string, size: int, buffer: Bytes)
  datatype Dimensions = Dimensions(width: nat, height: nat)
  datatype CaptureError = PngRequired | TooLarge | InvalidPng | BadDimensions | Busy
  datatype InflateRun = InflateRun(chunks: seq<Bytes>, failed: bool, bytesWritten: nat)
  type Inflater = seq<Bytes> -> InflateRun

  /** What the asynchronous half of a validation still needs. */
  datatype Job = Job(dimensions: Dimensions, rows: seq<Row>, compressed: seq<Bytes>)

  // ---- The image header

  datatype Header = Header(width: nat, height: nat, depth: nat, color: Byte, compression: nat, filter: nat,
                           interlace: nat)

  function ReadHeader(b: Bytes): Header
    requires |b| == 13
  {
    Header(ReadWord(b, 0), ReadWord(b, 4), b[8], b[9], b[10], b[11], b[12])
  }

  function Channels(color: Byte): Option<nat> {
    match color
    case 0 => Some(1)
    case 2 => Some(3)
    case 3 => Some(1)
    case 4 => Some(2)
    case 6 => Some(4)
    case _ => None
  }

  predicate DimensionsOk(h: Header) {
    1 <= h.width <= MAX_DIMENSION && 1 <= h.height <= MAX_DIMENSION
  }

  predicate HeaderOk(h: Header) {
    && Channels(h.color).Some?
    && h.depth in {1, 2, 4, 8, 16}
    && !(h.color == 3 && h.depth == 16)
    && !(h.color != 0 && h.color != 3 && h.depth < 8)
    && h.compression == 0 && h.filter == 0 && h.interlace <= 1
  }

  /** The depths that section 4.1.1 of RFC 2083 allows with each colour type. */
  function AllowedDepths(color: Byte): set<nat> {
    match color
    case 0 => {1, 2, 4, 8, 16}
    case 2 => {8, 16}
    case 3 => {1, 2, 4, 8}
    case 4 => {8, 16}
    case 6 => {8, 16}
    case _ => {}
  }

  /** The header test is the table of the standard: compression and filter method 0, interlace method 0 or 1. */
  lemma HeaderTable(h: Header)
    ensures HeaderOk(h) <==>
            h.depth in AllowedDepths(h.color) && h.compression == 0 && h.filter == 0 && h.interlace in {0, 1}
  {
    assert h.color == 0 || h.color == 2 || h.color == 3 || h.color == 4 || h.color == 6 || Channels(h.color).None?;
    assert h.interlace <= 1 <==> h.interlace in {0, 1};
  }

  function HeaderRows(h: Header): (rows: seq<Row>)
    requires HeaderOk(h)
    ensures forall i :: 0 <= i < |rows| ==> Occupied(rows[i])
  {
    Rows(h.width, h.height, Channels(h.color).value * h.depth, h.interlace != 0)
  }

  /** The samples of a pixel, by the bits of the colour type: 1 for a palette, 2 for colour, 4 for alpha. */
  function SamplesPerPixel(color: Byte): nat {
    (if color / 2 % 2 == 1 && color != 3 then 3 else 1) + (if color / 4 % 2 == 1 then 1 else 0)
  }

  /**
   * A header in the table lays out all its samples: passes of lines with one filter byte and less than one byte of
   * padding each; without interlacing, one line of whole bytes for each row of pixels.
   */
  lemma HeaderLayout(h: Header)
    requires 1 <= h.width && 1 <= h.height && h.depth in AllowedDepths(h.color)
    requires h.compression == 0 && h.filter == 0 && h.interlace <= 1
    ensures HeaderOk(h)
    ensures var bits, rows := h.depth * SamplesPerPixel(h.color), HeaderRows(h);
            && rows == Rows(h.width, h.height, bits, h.interlace == 1)
            && h.width * h.height * bits + 8 * Lines(rows) <= 8 * ExpectedBytes(rows)
            <= h.width * h.height * bits + 15 * Lines(rows)
            && (h.interlace == 0 ==>
                  && |rows| == 1 && rows[0].count == h.height
                  && rows[0].bytes * 8 - 8 < h.width * bits <= rows[0].bytes * 8
                  && ExpectedBytes(rows) == h.height * (1 + rows[0].bytes))
  {
    HeaderTable(h);
    var bits := h.depth * SamplesPerPixel(h.color);
    assert Channels(h.color) == Some(SamplesPerPixel(h.color));
    assert Channels(h.color).value * h.depth == bits;
    hide Channels, SamplesPerPixel, AllowedDepths;
    ExpectedBytesBounds(h.width, h.height, bits, h.interlace == 1);
    if h.interlace == 0 {
      PlainLayout(h.width, h.height, bits);
    }
  }

  lemma PlainLayout(width: nat, height: nat, bits: nat)
    requires width > 0 && height > 0 && bits > 0
    ensures var rows := Rows(width, height, bits, false);
            && |rows| == 1 && rows[0].count == height
            && rows[0].bytes * 8 - 8 < width * bits <= rows[0].bytes * 8
            && ExpectedBytes(rows) == height * (1 + rows[0].bytes)
  {
    var row := PassRow(width, height, bits, Pass(0, 0, 1, 1));
    assert Samples(width, 0, 1) == width && Samples(height, 0, 1) == height;
    MulMono(1, width, bits);
    assert WholeImage[1..] == [];
    assert RowsOf(width, height, bits, []) == [];
    assert Rows(width, height, bits, false) == [row] + [];
    assert ([row] + [])[1..] == [];
  }

  function TotalLength(parts: seq<Bytes>): nat {
    if parts == [] then 0 else |parts[0]| + TotalLength(parts[1..])
  }

  // ---- The specification

  /** The synchronous half: everything up to the decoder limit. */
  function Prepared(crc: Checksum, file: Option<Upload>): Result<Job, CaptureError> {
    if file.None? || file.value.mimeType != "image/png" then Err(PngRequired)
    else if file.value.size > MAX_CAPTURE_BYTES || |file.value.buffer| > MAX_CAPTURE_BYTES then Err(TooLarge)
    else
      var bytes := file.value.buffer;
      if |bytes| < 57 || bytes[..8] != SIGNATURE then Err(InvalidPng)
      else
        var h := ReadHeader(bytes[16..29]);
        if !DimensionsOk(h) then Err(BadDimensions)
        else if !HeaderOk(h) then Err(InvalidPng)
        else match Accepted(crc, h.color, bytes)
          case None => Err(InvalidPng)
          case Some(parts) => Ok(Job(Dimensions(h.width, h.height), HeaderRows(h), parts))
  }

  /** The asynchronous half: the inflater ends well, on data of the right shape, having used all its input. */
  ghost predicate Decodes(inflate: Inflater, job: Job) {
    var run := inflate(job.compressed);
    && !run.failed
    && WholeDataOk(job.rows, Flatten(run.chunks))
    && run.bytesWritten == TotalLength(job.compressed)
  }

  /** A complete capture in terms of its chunks alone. */
  ghost predicate WellFormed(crc: Checksum, inflate: Inflater, bytes: Bytes, cs: seq<Chunk>) {
    && |bytes| >= 8 && bytes[..8] == SIGNATURE
    && cs != [] && |cs[0].data| == 13
    && var h := ReadHeader(cs[0].data);
       && DimensionsOk(h) && HeaderOk(h)
       && Spells(crc, h.color, bytes[8..], cs)
       && Decodes(inflate, Job(Dimensions(h.width, h.height), HeaderRows(h), Payloads(cs)))
  }

  /**
   * A PNG upload of acceptable size passes both halves exactly when its bytes are the signature
   * followed by a grammatical chunk list whose header is in the table and whose image data
   * inflates to the announced layout.
   */
  lemma AcceptsExactlyWellFormed(crc: Checksum, inflate: Inflater, file: Upload)
    requires file.mimeType == "image/png" && file.size <= MAX_CAPTURE_BYTES && |file.buffer| <= MAX_CAPTURE_BYTES
    ensures Prepared(crc, Some(file)).Ok? && Decodes(inflate, Prepared(crc, Some(file)).value)
            <==> exists cs: seq<Chunk> :: WellFormed(crc, inflate, file.buffer, cs)
  {
    hide Decodes, Grammar, HeaderRows, HeaderOk, EncodeAll, AllFit;
    var bytes := file.buffer;
    if Prepared(crc, Some(file)).Ok? && Decodes(inflate, Prepared(crc, Some(file)).value) {
      var h := ReadHeader(bytes[16..29]);
      WalkAccepts(crc, h.color, bytes);
      var cs :| Spells(crc, h.color, bytes[8..], cs);
      ThreeChunks(h.color, cs);
      SpelledLength(crc, h.color, bytes, cs);
      assert WellFormed(crc, inflate, bytes, cs);
    }
    forall cs: seq<Chunk> | WellFormed(crc, inflate, bytes, cs)
      ensures Prepared(crc, Some(file)).Ok? && Decodes(inflate, Prepared(crc, Some(file)).value)
    {
      var h := ReadHeader(cs[0].data);
      SpelledLength(crc, h.color, bytes, cs);
      WalkAccepts(crc, h.color, bytes);
    }
  }

  // ---- The verdict, field by field

  /** The answer of the two halves together. */
  ghost function Validated(crc: Checksum, inflate: Inflater, file: Option<Upload>): Result<Dimensions, CaptureError> {
    match Prepared(crc, file)
    case Err(e) => Err(e)
    case Ok(job) => if Decodes(inflate, job) then Ok(job.dimensions) else Err(InvalidPng)
  }

  function HeaderData(width: Word, height: Word, depth: Byte, color: Byte, interlace: Byte): Bytes {
    WordBytes(width) + WordBytes(height) + [depth, color, 0, 0, interlace]
  }

  function Layout(width: nat, height: nat, depth: nat, color: Byte, interlace: nat): seq<Row> {
    Rows(width, height, depth * SamplesPerPixel(color), interlace == 1)
  }

  /** The inflater ends well, having used all its input, on data of the given layout. */
  ghost predicate Inflates(inflate: Inflater, rows: seq<Row>, parts: seq<Bytes>) {
    var run := inflate(parts);
    !run.failed && run.bytesWritten == |Flatten(parts)| && WholeDataOk(rows, Flatten(run.chunks))
  }

  /** The signature and a grammatical chunk list with this header, whose image data inflates to this layout. */
  ghost predicate Depicts(
      crc: Checksum, inflate: Inflater, bytes: Bytes, cs: seq<Chunk>, width: Word, height: Word, depth: Byte,
      color: Byte, interlace: Byte)
  {
    && |bytes| >= 8 && bytes[..8] == [137, 80, 78, 71, 13, 10, 26, 10]
    && cs != [] && cs[0].data == HeaderData(width, height, depth, color, interlace)
    && 1 <= width <= 4096 && 1 <= height <= 4096 && depth in AllowedDepths(color) && interlace <= 1
    && Spells(crc, color, bytes[8..], cs)
    && Inflates(inflate, Layout(width, height, depth, color, interlace), Payloads(cs))
  }

  lemma {:induction false} TotalIsFlat(parts: seq<Bytes>)
    ensures TotalLength(parts) == |Flatten(parts)|
  {
    if parts != [] {
      TotalIsFlat(parts[1..]);
    }
  }

  lemma HeaderBytes(b: Bytes, width: Word, height: Word, depth: Byte, color: Byte, interlace: Byte)
    requires b == HeaderData(width, height, depth, color, interlace)
    ensures |b| == 13 && ReadHeader(b) == Header(width, height, depth, color, 0, 0, interlace)
    ensures b[..4] == WordBytes(width) && b[4..8] == WordBytes(height)
  {
    var w, h := WordBytes(width), WordBytes(height);
    ReadWritten(width);
    ReadWritten(height);
    hide ReadWord, WordBytes;
    ReadAgrees(b, 0, w);
    ReadAgrees(b, 4, h);
  }

  lemma HeaderIsBytes(b: Bytes)
    requires |b| == 13 && b[10] == 0 && b[11] == 0
    ensures var h := ReadHeader(b);
            && h.width == ReadWord(b, 0) && h.height == ReadWord(b, 4)
            && b == HeaderData(ReadWord(b, 0), ReadWord(b, 4), b[8], b[9], b[12])
            && h == Header(ReadWord(b, 0), ReadWord(b, 4), b[8], b[9], 0, 0, b[12])
  {
    WriteRead(b, 0);
    WriteRead(b, 4);
    hide ReadWord, WordBytes;
    assert b == b[0..4] + b[4..8] + [b[8], b[9], b[10], b[11], b[12]];
  }

  /** A well-formed capture depicts an image of the size in its header, and conversely. */
  lemma WellFormedDepicts(crc: Checksum, inflate: Inflater, bytes: Bytes, cs: seq<Chunk>)
    requires WellFormed(crc, inflate, bytes, cs)
    ensures var d := cs[0].data;
            |d| == 13 && Depicts(crc, inflate, bytes, cs, ReadWord(d, 0), ReadWord(d, 4), d[8], d[9], d[12])
  {
    var d, h := cs[0].data, ReadHeader(cs[0].data);
    HeaderTable(h);
    HeaderIsBytes(d);
    HeaderLayout(h);
    TotalIsFlat(Payloads(cs));
    hide ReadWord, HeaderData, Spells, WholeDataOk, HeaderRows, Rows, SamplesPerPixel, AllowedDepths, HeaderOk,
         TotalLength, Flatten, ReadHeader;
  }

  lemma DepictsWellFormed(
      crc: Checksum, inflate: Inflater, bytes: Bytes, cs: seq<Chunk>, width: Word, height: Word, depth: Byte,
      color: Byte, interlace: Byte)
    requires Depicts(crc, inflate, bytes, cs, width, height, depth, color, interlace)
    ensures WellFormed(crc, inflate, bytes, cs)
    ensures |cs[0].data| == 13 && ReadHeader(cs[0].data) == Header(width, height, depth, color, 0, 0, interlace)
  {
    HeaderBytes(cs[0].data, width, height, depth, color, interlace);
    HeaderLayout(Header(width, height, depth, color, 0, 0, interlace));
    TotalIsFlat(Payloads(cs));
    hide ReadHeader, HeaderData, Spells, WholeDataOk, HeaderRows, Rows, SamplesPerPixel, AllowedDepths, HeaderOk,
         TotalLength, Flatten;
  }

  /** What the synchronous half reads from the file's own bytes. */
  lemma PreparedSize(crc: Checksum, file: Upload, cs: seq<Chunk>)
    requires Prepared(crc, Some(file)).Ok? && |file.buffer| >= 29 && cs != [] && cs[0].data == file.buffer[16..29]
    ensures var h := ReadHeader(cs[0].data);
            Prepared(crc, Some(file)).value.dimensions == Dimensions(h.width, h.height)
  {
    hide ReadHeader, HeaderRows, HeaderOk, Accepted;
  }

  /**
   * A file is accepted as an image of a size exactly if it is a PNG upload of at most five megabytes that depicts an
   * image of that size, with a depth and colour type of the table; the size stands at offsets 16 and 20.
   */
  lemma AcceptsExactlyImages(crc: Checksum, inflate: Inflater, file: Upload, width: Word, height: Word)
    ensures Validated(crc, inflate, Some(file)) == Ok(Dimensions(width, height)) <==>
            && file.mimeType == "image/png" && file.size <= 5_242_880 && |file.buffer| <= 5_242_880
            && exists cs: seq<Chunk>, depth: Byte, color: Byte, interlace: Byte ::
                 Depicts(crc, inflate, file.buffer, cs, width, height, depth, color, interlace)
    ensures Validated(crc, inflate, Some(file)) == Ok(Dimensions(width, height)) ==>
            && |file.buffer| >= 57
            && file.buffer[16..20] == WordBytes(width) && file.buffer[20..24] == WordBytes(height)
  {
    var bytes := file.buffer;
    if Validated(crc, inflate, Some(file)) == Ok(Dimensions(width, height)) {
      ImageOf(crc, inflate, file, width, height);
    }
    if file.mimeType == "image/png" && file.size <= 5_242_880 && |bytes| <= 5_242_880 {
      forall cs: seq<Chunk>, depth: Byte, color: Byte, interlace: Byte
        | Depicts(crc, inflate, bytes, cs, width, height, depth, color, interlace)
        ensures Validated(crc, inflate, Some(file)) == Ok(Dimensions(width, height))
      {
        DepictsWellFormed(crc, inflate, bytes, cs, width, height, depth, color, interlace);
        AcceptsExactlyWellFormed(crc, inflate, file);
        hide ReadHeader, WordBytes, WholeDataOk, Prepared, Decodes, HeaderOk, HeaderRows, Grammar, EncodeAll, AllFit;
        SpelledLength(crc, color, bytes, cs);
        PreparedSize(crc, file, cs);
      }
    }
    hide Prepared, Decodes, Depicts, WordBytes;
  }

  lemma ImageOf(crc: Checksum, inflate: Inflater, file: Upload, width: Word, height: Word)
    requires Validated(crc, inflate, Some(file)) == Ok(Dimensions(width, height))
    ensures file.mimeType == "image/png" && file.size <= 5_242_880 && 57 <= |file.buffer| <= 5_242_880
    ensures exists cs: seq<Chunk>, depth: Byte, color: Byte, interlace: Byte ::
              Depicts(crc, inflate, file.buffer, cs, width, height, depth, color, interlace)
    ensures file.buffer[16..20] == WordBytes(width) && file.buffer[20..24] == WordBytes(height)
  {
    var bytes := file.buffer;
    assert file.mimeType == "image/png" && file.size <= 5_242_880 && 57 <= |bytes| <= 5_242_880 by {
      hide ReadHeader, HeaderRows, HeaderOk, Accepted;
    }
    AcceptsExactlyWellFormed(crc, inflate, file);
    hide Prepared, Decodes;
    var cs: seq<Chunk> :| WellFormed(crc, inflate, bytes, cs);
    WellFormedSize(crc, inflate, file, cs);
    WellFormedDepicts(crc, inflate, bytes, cs);
    hide *;
    var d := cs[0].data;
    SizeBytes(bytes, d, width, height);
    assert Depicts(crc, inflate, bytes, cs, width, height, d[8], d[9], d[12]);
  }

  lemma WellFormedSize(crc: Checksum, inflate: Inflater, file: Upload, cs: seq<Chunk>)
    requires WellFormed(crc, inflate, file.buffer, cs) && Prepared(crc, Some(file)).Ok?
    ensures |file.buffer| >= 57 && |cs[0].data| == 13 && file.buffer[16..29] == cs[0].data
    ensures var d := cs[0].data;
            && Prepared(crc, Some(file)).value.dimensions == Dimensions(ReadWord(d, 0), ReadWord(d, 4))
            && d[10] == 0 && d[11] == 0
  {
    var h := ReadHeader(cs[0].data);
    HeaderTable(h);
    hide Prepared, Decodes, Grammar, EncodeAll, AllFit, HeaderRows, ReadWord, AllowedDepths, HeaderOk;
    SpelledLength(crc, h.color, file.buffer, cs);
    PreparedSize(crc, file, cs);
  }

  /** The header's first words stand at offsets 16 and 20 of the file. */
  lemma SizeBytes(bytes: Bytes, d: Bytes, width: Word, height: Word)
    requires |bytes| >= 57 && |d| == 13 && bytes[16..29] == d && d[10] == 0 && d[11] == 0
    requires width == ReadWord(d, 0) && height == ReadWord(d, 4)
    ensures bytes[16..20] == WordBytes(width) && bytes[20..24] == WordBytes(height)
  {
    hide ReadWord, WordBytes;
    HeaderIsBytes(d);
    HeaderBytes(d, width, height, d[8], d[9], d[12]);
    assert bytes[16..29][..4] == bytes[16..20] && bytes[16..29][4..8] == bytes[20..24];
  }

  /** Which error a refused file gets. */
  lemma RefusalMeans(crc: Checksum, inflate: Inflater, file: Option<Upload>)
    ensures var r := Validated(crc, inflate, file);
            var png := file.Some? && file.value.mimeType == "image/png";
            var small := png && file.value.size <= 5_242_880 && |file.value.buffer| <= 5_242_880;
            var signed := small && |file.value.buffer| >= 57
                          && file.value.buffer[..8] == [137, 80, 78, 71, 13, 10, 26, 10];
            && (r == Err(PngRequired) <==> !png)
            && (r == Err(TooLarge) <==> png && !small)
            && (r == Err(BadDimensions) <==>
                  && signed
                  && !(1 <= ReadWord(file.value.buffer, 16) <= 4096 && 1 <= ReadWord(file.value.buffer, 20) <= 4096))
            && r != Err(Busy)
  {
    if file.Some? && |file.value.buffer| >= 57 {
      var bytes := file.value.buffer;
      ReadAgrees(bytes, 16, bytes[16..29][..4]);
      ReadAgrees(bytes, 20, bytes[16..29][4..8]);
      ReadAgrees(bytes[16..29], 0, bytes[16..29][..4]);
      ReadAgrees(bytes[16..29], 4, bytes[16..29][4..8]);
      assert bytes[16..29][..4] == bytes[16..20] && bytes[16..29][4..8] == bytes[20..24];
    }
    hide Decodes, HeaderOk, HeaderRows, Accepted, ReadWord;
  }

  /** How the inflater cuts its output plays no part in the verdict. */
  lemma CutsIgnored(inflate: Inflater, inflate': Inflater, job: Job)
    requires var a, b := inflate(job.compressed), inflate'(job.compressed);
             a.failed == b.failed && a.bytesWritten == b.bytesWritten && Flatten(a.chunks) == Flatten(b.chunks)
    ensures Decodes(inflate, job) <==> Decodes(inflate', job)
  {
  }

  // ---- The validator with its decoder counter

  /** The result of the synchronous half and the counter after it, given the counter before. */
  function AfterBegin(crc: Checksum, file: Option<Upload>, activeDecoders: nat): (Result<Job, CaptureError>, nat) {
    var prepared := Prepared(crc, file);
    if prepared.Err? then (prepared, activeDecoders)
    else if activeDecoders >= MAX_ACTIVE_DECODERS then (Err(Busy), activeDecoders)
    else (prepared, activeDecoders + 1)
  }

  /** A file that is good so far is turned away exactly while two others decode; only a job taken counts. */
  lemma BusyExactly(crc: Checksum, file: Option<Upload>, activeDecoders: nat)
    ensures var (r, after) := AfterBegin(crc, file, activeDecoders);
            && (r == Err(Busy) <==> Prepared(crc, file).Ok? && activeDecoders >= 2)
            && (r != Err(Busy) ==> r == Prepared(crc, file))
            && after == activeDecoders + if r.Ok? then 1 else 0
  {
    hide ReadHeader, HeaderOk, HeaderRows, Accepted;
  }

  class PreviewCaptureValidator {
    var activeDecoders: nat

    constructor ()
      ensures activeDecoders == 0
    {
      activeDecoders := 0;
    }

    /** Up to the first suspension: a decoder slot is taken exactly when a job is returned. */
    method Begin(crc: Checksum, file: Option<Upload>) returns (r: Result<Job, CaptureError>)
      modifies this
      ensures (r, activeDecoders) == AfterBegin(crc, file, old(activeDecoders))
    {
      hide ReadHeader, DimensionsOk, HeaderOk, HeaderRows, Accepted;
      if file.None? || file.value.mimeType != "image/png" {
        return Err(PngRequired);
      }
      if file.value.size > MAX_CAPTURE_BYTES || |file.value.buffer| > MAX_CAPTURE_BYTES {
        return Err(TooLarge);
      }
      var bytes := file.value.buffer;
      if |bytes| < 57 || bytes[..8] != SIGNATURE {
        return Err(InvalidPng);
      }
      var h := ReadHeader(bytes[16..29]);
      if !DimensionsOk(h) {
        return Err(BadDimensions);
      }
      if !HeaderOk(h) {
        return Err(InvalidPng);
      }
      var compressed := WalkChunks(crc, bytes, h.color);
      if compressed.None? {
        return Err(InvalidPng);
      }
      var rows := HeaderRows(h);
      if activeDecoders >= MAX_ACTIVE_DECODERS {
        return Err(Busy);
      }
      activeDecoders := activeDecoders + 1;
      return Ok(Job(Dimensions(h.width, h.height), rows, compressed.value));
    }

    /** From the inflater's first chunk to the end: the slot is given back on every path. */
    method Finish(inflate: Inflater, job: Job) returns (r: Result<Dimensions, CaptureError>)
      requires activeDecoders > 0 && forall i :: 0 <= i < |job.rows| ==> Occupied(job.rows[i])
      modifies this
      ensures r == if Decodes(inflate, job) then Ok(job.dimensions) else Err(InvalidPng)
      ensures activeDecoders == old(activeDecoders) - 1
    {
      var run := inflate(job.compressed);
      var ok := CheckStream(job.rows, run.chunks);
      activeDecoders := activeDecoders - 1;
      if !ok || run.failed || run.bytesWritten != TotalLength(job.compressed) {
        return Err(InvalidPng);
      }
      return Ok(job.dimensions);
    }
  }

  // ---- The decoder limit over any interleaving of validations

  datatype DecoderEvent = Begun(id: nat, file: Option<Upload>) | Finished(id: nat)

  /** The counter, and the validations between their two halves with their jobs. */
  datatype DecoderPool = DecoderPool(activeDecoders: nat, decoding: map<nat, Job>)

  function PoolStep(crc: Checksum, p: DecoderPool, e: DecoderEvent): DecoderPool {
    match e
    case Begun(id, file) =>
      if id in p.decoding then p
      else
        var (r, activeDecoders) := AfterBegin(crc, file, p.activeDecoders);
        DecoderPool(activeDecoders, if r.Ok? then p.decoding[id := r.value] else p.decoding)
    case Finished(id) =>
      if id !in p.decoding || p.activeDecoders == 0 then p
      else DecoderPool(p.activeDecoders - 1, p.decoding - {id})
  }

  function PoolRun(crc: Checksum, p: DecoderPool, events: seq<DecoderEvent>): DecoderPool
    decreases events
  {
    if events == [] then p else PoolRun(crc, PoolStep(crc, p, events[0]), events[1..])
  }

  /** The counter counts the validations that decode, at most two, and each of them may call the second half. */
  predicate Counted(p: DecoderPool) {
    && p.activeDecoders == |p.decoding| <= 2
    && forall id :: id in p.decoding ==>
         p.activeDecoders > 0 && forall i :: 0 <= i < |p.decoding[id].rows| ==> Occupied(p.decoding[id].rows[i])
  }

  /** A validation that takes a slot is kept with its job until its second half gives the slot back. */
  lemma PoolMeans(crc: Checksum, p: DecoderPool, id: nat, file: Option<Upload>)
    ensures id !in p.decoding ==>
              var t := PoolStep(crc, p, Begun(id, file));
              if Prepared(crc, file).Ok? && p.activeDecoders < 2
              then t == DecoderPool(p.activeDecoders + 1, p.decoding[id := Prepared(crc, file).value]) else t == p
    ensures id in p.decoding && p.activeDecoders > 0 ==>
              PoolStep(crc, p, Finished(id)) == DecoderPool(p.activeDecoders - 1, p.decoding - {id})
  {
    BusyExactly(crc, file, p.activeDecoders);
    hide Prepared;
  }

  lemma PreparedOccupied(crc: Checksum, file: Option<Upload>)
    requires Prepared(crc, file).Ok?
    ensures forall i :: 0 <= i < |Prepared(crc, file).value.rows| ==> Occupied(Prepared(crc, file).value.rows[i])
  {
  }

  lemma SizeAdds(m: map<nat, Job>, id: nat, job: Job)
    requires id !in m
    ensures |m[id := job]| == |m| + 1
  {
    assert m[id := job].Keys == m.Keys + {id};
    assert |m[id := job]| == |m[id := job].Keys| && |m| == |m.Keys|;
  }

  lemma SizeDrops(m: map<nat, Job>, id: nat)
    requires id in m
    ensures |m - {id}| == |m| - 1
  {
    assert (m - {id}).Keys == m.Keys - {id};
    assert |m - {id}| == |(m - {id}).Keys| && |m| == |m.Keys|;
  }

  lemma NotEmpty(m: map<nat, Job>)
    ensures forall id :: id in m ==> |m| > 0
  {
    assert |m| == |m.Keys| && forall id :: id in m ==> id in m.Keys;
  }

  lemma PoolStepCounted(crc: Checksum, p: DecoderPool, e: DecoderEvent)
    requires Counted(p)
    ensures Counted(PoolStep(crc, p, e))
  {
    match e
    case Begun(id, file) =>
      hide Counted, PoolStep;
      BegunCounted(crc, p, id, file);
    case Finished(id) =>
      if id in p.decoding {
        SizeDrops(p.decoding, id);
        NotEmpty(p.decoding - {id});
        hide Occupied;
      }
  }

  lemma BegunCounted(crc: Checksum, p: DecoderPool, id: nat, file: Option<Upload>)
    requires Counted(p)
    ensures Counted(PoolStep(crc, p, Begun(id, file)))
  {
    hide Prepared, Occupied;
    if id !in p.decoding && Prepared(crc, file).Ok? {
      PreparedOccupied(crc, file);
      SizeAdds(p.decoding, id, Prepared(crc, file).value);
    }
  }

  /** On every run of the two halves the counter is the number of validations that decode, and never exceeds two. */
  lemma {:induction false} DecodersBounded(crc: Checksum, p: DecoderPool, events: seq<DecoderEvent>)
    requires Counted(p)
    ensures forall n :: 0 <= n <= |events| ==> Counted(PoolRun(crc, p, events[..n]))
    decreases events
  {
    hide Counted, PoolStep;
    if events != [] {
      PoolStepCounted(crc, p, events[0]);
      DecodersBounded(crc, PoolStep(crc, p, events[0]), events[1..]);
    }
    forall n | 0 <= n <= |events|
      ensures Counted(PoolRun(crc, p, events[..n]))
    {
      assert n > 0 ==> events[..n][1..] == events[1..][..n - 1];
    }
  }
}
