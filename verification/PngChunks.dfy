/**
 * The chunk walk of the PNG capture validator
 * (apps/api/src/attachments/preview-capture-validation.ts), its order automaton, and the
 * grammar it accepts. CRC-32 is a parameter of every member: nothing here depends on it.
 */
module PngChunks {
  import opened Common

  type Byte = b: int | 0 <= b < 256
  type Bytes = seq<Byte>
  type Word = w: int | 0 <= w < 0x1_0000_0000
  type Checksum = Bytes -> Word

  // ---- 32-bit big-endian numbers

  function ReadWord(b: Bytes, i: nat): Word
    requires i + 4 <= |b|
  {
    (((b[i] as int) * 256 + b[i + 1]) * 256 + b[i + 2]) * 256 + b[i + 3]
  }

  function WordBytes(w: Word): (r: Bytes)
    ensures |r| == 4
  {
    [w / 0x100_0000, w / 0x1_0000 % 256, w / 256 % 256, w % 256]
  }

  lemma ReadWritten(w: Word)
    ensures ReadWord(WordBytes(w), 0) == w
  {
    var a: int, b: int, c: int := w / 0x100_0000, w / 0x1_0000, w / 256;
    assert b == a * 256 + b % 256 && c == b * 256 + c % 256 && w == c * 256 + w % 256;
  }

  lemma WriteRead(b: Bytes, i: nat)
    requires i + 4 <= |b|
    ensures WordBytes(ReadWord(b, i)) == b[i..i + 4]
  {
    var w := ReadWord(b, i);
    var p2: int := (b[i] as int) * 256 + b[i + 1];
    var p3: int := p2 * 256 + b[i + 2];
    assert w == p3 * 256 + b[i + 3];
    hide ReadWord;
    assert w / 256 == p3 && w % 256 == b[i + 3];
    assert w / 0x1_0000 == w / 256 / 256 == p2 && p3 % 256 == b[i + 2];
    assert w / 0x100_0000 == w / 0x1_0000 / 256 == b[i] && p2 % 256 == b[i + 1];
    assert b[i..i + 4] == [b[i], b[i + 1], b[i + 2], b[i + 3]];
  }

  // ---- Chunks

  const IHDR: Bytes := [73, 72, 68, 82]
  const PLTE: Bytes := [80, 76, 84, 69]
  const IDAT: Bytes := [73, 68, 65, 84]
  const IEND: Bytes := [73, 69, 78, 68]

  datatype Chunk = Chunk(rawType: Bytes, data: Bytes) {
    predicate Fits() {
      |rawType| == 4 && |data| < 0x1_0000_0000
    }

    /** The type as the 'ascii' decoder reads it: the decoder drops the high bit of each byte. */
    function Name(): (r: Bytes)
      ensures |r| == |rawType|
    {
      seq(|rawType|, i requires 0 <= i < |rawType| => rawType[i] % 128)
    }

    predicate Letters() {
      forall i :: 0 <= i < |rawType| ==> IsLetter(Name()[i])
    }

    predicate Is(name: Bytes) {
      Name() == name
    }

    /** A chunk that a decoder may skip: the first letter of its type is lower case. */
    predicate Ancillary() {
      rawType != [] && Name()[0] >= 97
    }
  }

  predicate IsLetter(b: Byte) {
    65 <= b <= 90 || 97 <= b <= 122
  }

  predicate AllFit(cs: seq<Chunk>) {
    forall i :: 0 <= i < |cs| ==> cs[i].Fits()
  }

  function Encode(crc: Checksum, c: Chunk): (r: Bytes)
    requires c.Fits()
    ensures |r| == |c.data| + 12
  {
    WordBytes(|c.data|) + c.rawType + c.data + WordBytes(crc(c.rawType + c.data))
  }

  function EncodeAll(crc: Checksum, cs: seq<Chunk>): Bytes
    requires AllFit(cs)
  {
    if cs == [] then [] else Encode(crc, cs[0]) + EncodeAll(crc, cs[1..])
  }

  // ---- The order automaton of the walk

  datatype Walker = Walker(ended: bool, palette: bool, dataEnded: bool, idats: seq<Bytes>)

  const Start := Walker(false, false, false, [])

  /** One pass through the loop body, after the length and checksum tests. */
  function Step(color: Byte, first: bool, s: Walker, c: Chunk): Option<Walker> {
    if s.ended || !c.Letters() then None
    else if (if first then !c.Is(IHDR) || |c.data| != 13 else c.Is(IHDR)) then None
    else if c.Is(PLTE) then
      if s.palette || s.idats != [] || |c.data| == 0 || |c.data| % 3 != 0 || |c.data| > 768 then None
      else Some(s.(palette := true))
    else if c.Is(IDAT) then
      if s.dataEnded || (color == 3 && !s.palette) then None
      else Some(s.(idats := s.idats + [c.data]))
    else if c.Is(IEND) then
      if |c.data| != 0 || s.idats == [] then None
      else Some(s.(ended := true, dataEnded := true))
    else if !c.Is(IHDR) && !c.Ancillary() then None
    else Some(s.(dataEnded := s.dataEnded || s.idats != []))
  }

  /** The automaton over a whole list of chunks. */
  function Run(color: Byte, cs: seq<Chunk>): Option<Walker> {
    if cs == [] then Some(Start)
    else match Run(color, cs[..|cs| - 1])
      case None => None
      case Some(s) => Step(color, |cs| == 1, s, cs[|cs| - 1])
  }

  // The chunk at an offset, as the walk reads it.

  predicate HoldsChunk(bytes: Bytes, offset: nat) {
    offset + 12 <= |bytes| && offset + (ReadWord(bytes, offset) as int) + 12 <= |bytes|
  }

  function EndOf(bytes: Bytes, offset: nat): (end: nat)
    requires HoldsChunk(bytes, offset)
    ensures offset + 12 <= end <= |bytes|
  {
    offset + (ReadWord(bytes, offset) as int) + 12
  }

  function ChunkAt(bytes: Bytes, offset: nat): Chunk
    requires HoldsChunk(bytes, offset)
  {
    Chunk(bytes[offset + 4..offset + 8], bytes[offset + 8..EndOf(bytes, offset) - 4])
  }

  predicate ChecksAt(crc: Checksum, bytes: Bytes, offset: nat)
    requires HoldsChunk(bytes, offset)
  {
    var end := EndOf(bytes, offset);
    crc(bytes[offset + 4..end - 4]) == ReadWord(bytes, end - 4)
  }

  /** The walk from an offset on; the first chunk starts at offset 8, after the signature. */
  function Walk(crc: Checksum, color: Byte, bytes: Bytes, offset: nat, s: Walker): Option<Walker>
    requires offset <= |bytes|
    decreases |bytes| - offset
  {
    if offset == |bytes| then Some(s)
    else if s.ended || !HoldsChunk(bytes, offset) || !ChecksAt(crc, bytes, offset) then None
    else match Step(color, offset == 8, s, ChunkAt(bytes, offset))
      case None => None
      case Some(next) => Walk(crc, color, bytes, EndOf(bytes, offset), next)
  }

  // ---- The grammar, stated without the automaton

  predicate Has(cs: seq<Chunk>, name: Bytes) {
    exists i :: 0 <= i < |cs| && cs[i].Is(name)
  }

  /** The header comes first, and only there; it is 13 bytes long. */
  predicate HeaderRules(cs: seq<Chunk>) {
    forall i :: 0 <= i < |cs| ==> (cs[i].Is(IHDR) <==> i == 0) && (i == 0 ==> |cs[i].data| == 13)
  }

  /** The end marker comes last, is empty, and follows some image data. */
  predicate EndRules(cs: seq<Chunk>) {
    forall i :: 0 <= i < |cs| && cs[i].Is(IEND) ==> i == |cs| - 1 && cs[i].data == [] && Has(cs[..i], IDAT)
  }

  /** At most one palette, before the image data, of 1 to 256 three-byte entries. */
  predicate PaletteRules(cs: seq<Chunk>) {
    forall i :: 0 <= i < |cs| && cs[i].Is(PLTE) ==>
      && 0 < |cs[i].data| <= 768 && |cs[i].data| % 3 == 0
      && !Has(cs[..i], PLTE) && !Has(cs[..i], IDAT)
  }

  /** The image data chunks are consecutive; with colour type 3 a palette precedes them. */
  ghost predicate DataRules(color: Byte, cs: seq<Chunk>) {
    && (forall i, j, k :: 0 <= i < j < k < |cs| && cs[i].Is(IDAT) && cs[k].Is(IDAT) ==> cs[j].Is(IDAT))
    && (color == 3 ==> forall i :: 0 <= i < |cs| && cs[i].Is(IDAT) ==> Has(cs[..i], PLTE))
  }

  /** Types are four letters, and no unknown type is critical. */
  predicate KnownRules(cs: seq<Chunk>) {
    forall i :: 0 <= i < |cs| ==> cs[i].Letters() && Known(cs[i])
  }

  predicate Known(c: Chunk) {
    c.Is(IHDR) || c.Is(PLTE) || c.Is(IDAT) || c.Is(IEND) || c.Ancillary()
  }

  /** What every accepted prefix satisfies. */
  ghost predicate Rules(color: Byte, cs: seq<Chunk>) {
    HeaderRules(cs) && EndRules(cs) && PaletteRules(cs) && DataRules(color, cs) && KnownRules(cs)
  }

  /** The accepted chunk lists: the rules hold and the last chunk is the end marker. */
  ghost predicate Grammar(color: Byte, cs: seq<Chunk>) {
    Rules(color, cs) && cs != [] && cs[|cs| - 1].Is(IEND)
  }

  function Payloads(cs: seq<Chunk>): seq<Bytes> {
    if cs == [] then []
    else Payloads(cs[..|cs| - 1]) + (if cs[|cs| - 1].Is(IDAT) then [cs[|cs| - 1].data] else [])
  }

  predicate AfterData(cs: seq<Chunk>) {
    exists i, j :: 0 <= i < j < |cs| && cs[i].Is(IDAT) && !cs[j].Is(IDAT)
  }

  lemma HasSnoc(cs: seq<Chunk>, c: Chunk, name: Bytes)
    ensures Has(cs + [c], name) <==> Has(cs, name) || c.Is(name)
  {
    if Has(cs, name) {
      var i :| 0 <= i < |cs| && cs[i].Is(name);
      assert (cs + [c])[i].Is(name);
    }
    if c.Is(name) {
      assert (cs + [c])[|cs|].Is(name);
    }
  }

  lemma AfterDataSnoc(cs: seq<Chunk>, c: Chunk)
    ensures AfterData(cs + [c]) <==> AfterData(cs) || (Has(cs, IDAT) && !c.Is(IDAT))
  {
    var all := cs + [c];
    if AfterData(cs) {
      var i, j :| 0 <= i < j < |cs| && cs[i].Is(IDAT) && !cs[j].Is(IDAT);
      assert all[i].Is(IDAT) && !all[j].Is(IDAT);
    }
    if Has(cs, IDAT) && !c.Is(IDAT) {
      var i :| 0 <= i < |cs| && cs[i].Is(IDAT);
      assert all[i].Is(IDAT) && !all[|cs|].Is(IDAT);
    }
  }

  lemma NamesDistinct(c: Chunk)
    ensures !(c.Is(IHDR) && c.Is(PLTE)) && !(c.Is(IHDR) && c.Is(IDAT)) && !(c.Is(IHDR) && c.Is(IEND))
    ensures !(c.Is(PLTE) && c.Is(IDAT)) && !(c.Is(PLTE) && c.Is(IEND)) && !(c.Is(IDAT) && c.Is(IEND))
    ensures c.Is(IHDR) || c.Is(PLTE) || c.Is(IDAT) || c.Is(IEND) ==> !c.Ancillary()
  {
    assert IHDR[1] != PLTE[1] && IHDR[1] != IDAT[1] && IHDR[1] != IEND[1];
    assert PLTE[1] != IDAT[1] && PLTE[1] != IEND[1] && IDAT[1] != IEND[1];
  }

  // ---- The automaton accepts exactly the grammar

  ghost predicate Summary(cs: seq<Chunk>, s: Walker) {
    && (s.ended <==> Has(cs, IEND))
    && (s.palette <==> Has(cs, PLTE))
    && (s.dataEnded <==> AfterData(cs))
    && s.idats == Payloads(cs)
    && (s.idats != [] <==> Has(cs, IDAT))
  }

  /** The rules that the last chunk must meet, given the chunks before it. */
  ghost predicate LastRules(color: Byte, cs: seq<Chunk>, c: Chunk) {
    && c.Letters()
    && (c.Is(IHDR) <==> cs == [])
    && (c.Is(IHDR) ==> |c.data| == 13)
    && !Has(cs, IEND)
    && (c.Is(IEND) ==> c.data == [] && Has(cs, IDAT))
    && (c.Is(PLTE) ==> 0 < |c.data| <= 768 && |c.data| % 3 == 0 && !Has(cs, PLTE) && !Has(cs, IDAT))
    && (c.Is(IDAT) ==> !AfterData(cs) && (color == 3 ==> Has(cs, PLTE)))
    && Known(c)
  }

  lemma SnocAt(cs: seq<Chunk>, c: Chunk)
    ensures forall i :: 0 <= i < |cs| ==> (cs + [c])[i] == cs[i] && (cs + [c])[..i] == cs[..i]
    ensures (cs + [c])[|cs|] == c && (cs + [c])[..|cs|] == cs
  {
  }

  /** Contiguity, one chunk at a time. */
  lemma DataRulesSnoc(color: Byte, cs: seq<Chunk>, c: Chunk)
    ensures DataRules(color, cs + [c]) <==>
            DataRules(color, cs) && (c.Is(IDAT) ==> !AfterData(cs) && (color == 3 ==> Has(cs, PLTE)))
  {
    SnocAt(cs, c);
    var all := cs + [c];
    if DataRules(color, all) {
      forall i, j, k | 0 <= i < j < k < |cs| && cs[i].Is(IDAT) && cs[k].Is(IDAT)
        ensures cs[j].Is(IDAT)
      {
        assert all[i] == cs[i] && all[j] == cs[j] && all[k] == cs[k];
      }
      forall i, j | 0 <= i < j < |cs| && cs[i].Is(IDAT) && c.Is(IDAT)
        ensures cs[j].Is(IDAT)
      {
        assert all[i] == cs[i] && all[j] == cs[j] && all[|cs|] == c;
      }
    }
    if DataRules(color, cs) && (c.Is(IDAT) ==> !AfterData(cs) && (color == 3 ==> Has(cs, PLTE))) {
      forall i, j, k | 0 <= i < j < k < |all| && all[i].Is(IDAT) && all[k].Is(IDAT)
        ensures all[j].Is(IDAT)
      {
        assert all[i] == cs[i] && all[j] == cs[j];
        assert k < |cs| ==> all[k] == cs[k];
      }
    }
  }

  lemma HeaderRulesSnoc(cs: seq<Chunk>, c: Chunk)
    ensures HeaderRules(cs + [c]) <==>
            HeaderRules(cs) && (c.Is(IHDR) <==> cs == []) && (cs == [] ==> |c.data| == 13)
  {
    SnocAt(cs, c);
    var all := cs + [c];
    assert forall i :: 0 <= i < |cs| ==> (cs[i].Is(IHDR) <==> all[i].Is(IHDR));
  }

  lemma PaletteRulesSnoc(cs: seq<Chunk>, c: Chunk)
    ensures PaletteRules(cs + [c]) <==>
            PaletteRules(cs)
            && (c.Is(PLTE) ==> 0 < |c.data| <= 768 && |c.data| % 3 == 0 && !Has(cs, PLTE) && !Has(cs, IDAT))
  {
    SnocAt(cs, c);
    var all := cs + [c];
    hide Has;
    assert forall i :: 0 <= i < |cs| ==> (cs[i].Is(PLTE) <==> all[i].Is(PLTE));
  }

  lemma EndRulesSnoc(cs: seq<Chunk>, c: Chunk)
    ensures EndRules(cs + [c]) <==> !Has(cs, IEND) && (c.Is(IEND) ==> c.data == [] && Has(cs, IDAT))
    ensures !Has(cs, IEND) ==> EndRules(cs)
  {
    SnocAt(cs, c);
    var all := cs + [c];
    assert forall i :: 0 <= i < |cs| ==> (cs[i].Is(IEND) <==> all[i].Is(IEND));
  }

  lemma KnownRulesSnoc(cs: seq<Chunk>, c: Chunk)
    ensures KnownRules(cs + [c]) <==> KnownRules(cs) && c.Letters() && Known(c)
  {
    SnocAt(cs, c);
    var all := cs + [c];
    hide Known;
    assert forall i :: 0 <= i < |cs| ==> (Known(cs[i]) && cs[i].Letters() <==> Known(all[i]) && all[i].Letters());
  }

  /** The rules, one chunk at a time. */
  lemma RulesSnoc(color: Byte, cs: seq<Chunk>, c: Chunk)
    ensures Rules(color, cs + [c]) <==> Rules(color, cs) && LastRules(color, cs, c)
  {
    HeaderRulesSnoc(cs, c);
    PaletteRulesSnoc(cs, c);
    EndRulesSnoc(cs, c);
    KnownRulesSnoc(cs, c);
    DataRulesSnoc(color, cs, c);
    hide HeaderRules, PaletteRules, EndRules, KnownRules, DataRules, Has, AfterData, Known;
  }

  lemma PayloadsSnoc(cs: seq<Chunk>, c: Chunk)
    ensures Payloads(cs + [c]) == Payloads(cs) + (if c.Is(IDAT) then [c.data] else [])
  {
    assert (cs + [c])[..|cs|] == cs;
  }

  lemma StepMeetsRules(color: Byte, cs: seq<Chunk>, c: Chunk, s: Walker)
    requires Summary(cs, s)
    ensures Step(color, cs == [], s, c).Some? <==> LastRules(color, cs, c)
    ensures Step(color, cs == [], s, c).Some? ==> Summary(cs + [c], Step(color, cs == [], s, c).value)
  {
    NamesDistinct(c);
    HasSnoc(cs, c, IEND);
    HasSnoc(cs, c, PLTE);
    HasSnoc(cs, c, IDAT);
    AfterDataSnoc(cs, c);
    PayloadsSnoc(cs, c);
  }

  /** The automaton accepts a list of chunks exactly when the rules hold, and then summarises it. */
  lemma {:induction false} RunMeetsRules(color: Byte, cs: seq<Chunk>)
    ensures Run(color, cs).Some? <==> Rules(color, cs)
    ensures Run(color, cs).Some? ==> Summary(cs, Run(color, cs).value)
  {
    if cs != [] {
      var before, last := cs[..|cs| - 1], cs[|cs| - 1];
      assert cs == before + [last];
      RunMeetsRules(color, before);
      if Run(color, before).Some? {
        StepMeetsRules(color, before, last, Run(color, before).value);
      }
      RulesSnoc(color, before, last);
    }
  }

  // ---- Names

  /** The types as they are written, and the letters that a type may have. */
  lemma NamesAre()
    ensures forall i :: 0 <= i < 4 ==>
              && IHDR[i] == "IHDR"[i] as int && PLTE[i] == "PLTE"[i] as int
              && IDAT[i] == "IDAT"[i] as int && IEND[i] == "IEND"[i] as int
    ensures |IHDR| == |PLTE| == |IDAT| == |IEND| == 4
  {
  }

  lemma LettersAre(b: Byte)
    ensures IsLetter(b) <==> 'A' <= b as char <= 'Z' || 'a' <= b as char <= 'z'
  {
  }
}
