/**
 * The chunk walk as a parser: it accepts a byte string exactly when the string is the
 * serialisation of a chunk list in the grammar, and that list is unique.
 */
module PngWalk {
  import opened Common
  import opened PngChunks

  /** Where a serialised chunk stands, the walk reads that chunk. */
  lemma EncodedAt(crc: Checksum, c: Chunk, tail: Bytes, bytes: Bytes, offset: nat)
    requires c.Fits() && offset <= |bytes| && bytes[offset..] == Encode(crc, c) + tail
    ensures HoldsChunk(bytes, offset) && ChunkAt(bytes, offset) == c && ChecksAt(crc, bytes, offset)
    ensures EndOf(bytes, offset) == offset + |c.data| + 12 && bytes[EndOf(bytes, offset)..] == tail
  {
    var n := |c.data|;
    var head, sum := WordBytes(n), WordBytes(crc(c.rawType + c.data));
    FourPieces(bytes, offset, head, c.rawType, c.data, sum, tail);
    ReadWritten(n);
    ReadWritten(crc(c.rawType + c.data));
    hide ReadWord, WordBytes;
    ReadAgrees(bytes, offset, head);
    ReadAgrees(bytes, offset + 8 + n, sum);
  }

  lemma FourPieces(bytes: Bytes, offset: nat, head: Bytes, name: Bytes, data: Bytes, sum: Bytes, tail: Bytes)
    requires offset <= |bytes| && bytes[offset..] == head + name + data + sum + tail
    requires |head| == 4 && |name| == 4 && |sum| == 4
    ensures var end := offset + 8 + |data|;
            && end + 4 <= |bytes|
            && bytes[offset..offset + 4] == head && bytes[offset + 4..offset + 8] == name
            && bytes[offset + 8..end] == data && bytes[offset + 4..end] == name + data
            && bytes[end..end + 4] == sum && bytes[end + 4..] == tail
  {
    Piece(bytes, offset, [], head, name + data + sum + tail);
    Piece(bytes, offset, head, name, data + sum + tail);
    Piece(bytes, offset, head + name, data, sum + tail);
    Piece(bytes, offset, head, name + data, sum + tail);
    Piece(bytes, offset, head + name + data, sum, tail);
    Piece(bytes, offset, head + name + data + sum, tail, []);
  }

  lemma Piece(bytes: Bytes, offset: nat, a: Bytes, b: Bytes, c: Bytes)
    requires offset <= |bytes| && bytes[offset..] == a + b + c
    ensures offset + |a| + |b| <= |bytes| && bytes[offset + |a|..offset + |a| + |b|] == b
  {
    assert bytes[offset..][|a|..|a| + |b|] == b;
  }

  lemma ReadAgrees(b: Bytes, i: nat, word: Bytes)
    requires i + 4 <= |b| && |word| == 4 && b[i..i + 4] == word
    ensures ReadWord(b, i) == ReadWord(word, 0)
  {
    assert b[i] == word[0] && b[i + 1] == word[1] && b[i + 2] == word[2] && b[i + 3] == word[3];
  }

  /** A chunk the walk reads, with a good checksum, serialises to the bytes it was read from. */
  lemma EncodeRead(crc: Checksum, bytes: Bytes, offset: nat)
    requires HoldsChunk(bytes, offset) && ChecksAt(crc, bytes, offset)
    ensures var c := ChunkAt(bytes, offset);
            c.Fits() && Encode(crc, c) == bytes[offset..EndOf(bytes, offset)]
  {
    var end := EndOf(bytes, offset);
    WriteRead(bytes, offset);
    WriteRead(bytes, end - 4);
    hide ReadWord, WordBytes;
    Adjoin(bytes, offset + 4, offset + 8, end - 4);
    FourAdjoin(bytes, offset, offset + 4, offset + 8, end - 4, end);
  }

  lemma FourAdjoin(bytes: Bytes, i: nat, j: nat, k: nat, l: nat, m: nat)
    requires i <= j <= k <= l <= m <= |bytes|
    ensures bytes[i..j] + bytes[j..k] + bytes[k..l] + bytes[l..m] == bytes[i..m]
  {
    Adjoin(bytes, i, j, k);
    Adjoin(bytes, i, k, l);
    Adjoin(bytes, i, l, m);
  }

  lemma Adjoin(bytes: Bytes, i: nat, j: nat, k: nat)
    requires i <= j <= k <= |bytes|
    ensures bytes[i..j] + bytes[j..k] == bytes[i..k]
  {
  }

  lemma {:induction false} RunFailsOnward(color: Byte, cs: seq<Chunk>, more: seq<Chunk>)
    requires Run(color, cs).None?
    ensures Run(color, cs + more).None?
  {
    if more == [] {
      assert cs + more == cs;
    } else {
      var init := more[..|more| - 1];
      RunFailsOnward(color, cs, init);
      assert (cs + more)[..|cs + more| - 1] == cs + init;
    }
  }

  lemma EndedStops(color: Byte, first: bool, s: Walker, c: Chunk)
    ensures s.ended ==> Step(color, first, s, c).None?
  {
  }

  /** Completeness: where a serialised list stands, the walk continues the automaton over that list. */
  lemma {:induction false} WalkEncoded(
      crc: Checksum, color: Byte, bytes: Bytes, offset: nat, before: seq<Chunk>, cs: seq<Chunk>)
    requires AllFit(cs) && Run(color, before).Some?
    requires 8 <= offset <= |bytes| && (before == [] <==> offset == 8)
    requires bytes[offset..] == EncodeAll(crc, cs)
    ensures Walk(crc, color, bytes, offset, Run(color, before).value) == Run(color, before + cs)
    decreases cs
  {
    hide Step, Encode, ChunkAt, ChecksAt, HoldsChunk, EndOf;
    var s := Run(color, before).value;
    if cs == [] {
      assert before + cs == before;
    } else {
      var c, tail := cs[0], cs[1..];
      var next := before + [c];
      EncodedAt(crc, c, EncodeAll(crc, tail), bytes, offset);
      assert next[..|next| - 1] == before;
      assert next + tail == before + cs;
      EndedStops(color, before == [], s, c);
      if Run(color, next).Some? {
        WalkEncoded(crc, color, bytes, offset + |c.data| + 12, next, tail);
      } else {
        RunFailsOnward(color, next, tail);
      }
    }
  }

  /** Soundness: what the walk accepts is a serialised list. */
  lemma {:induction false} WalkDecodes(crc: Checksum, color: Byte, bytes: Bytes, offset: nat, s: Walker)
    returns (cs: seq<Chunk>)
    requires offset <= |bytes| && Walk(crc, color, bytes, offset, s).Some?
    ensures AllFit(cs) && bytes[offset..] == EncodeAll(crc, cs)
    decreases |bytes| - offset
  {
    hide Step, Encode;
    if offset == |bytes| {
      cs := [];
    } else {
      var c, end := ChunkAt(bytes, offset), EndOf(bytes, offset);
      EncodeRead(crc, bytes, offset);
      var tail := WalkDecodes(crc, color, bytes, end, Step(color, offset == 8, s, c).value);
      cs := [c] + tail;
      assert cs[1..] == tail;
      assert bytes[offset..] == bytes[offset..end] + bytes[end..];
    }
  }

  /** Two lists of chunks with the same serialisation are the same list. */
  lemma {:induction false} EncodingUnique(crc: Checksum, cs: seq<Chunk>, ds: seq<Chunk>)
    requires AllFit(cs) && AllFit(ds) && EncodeAll(crc, cs) == EncodeAll(crc, ds)
    ensures cs == ds
  {
    if cs != [] && ds != [] {
      var bytes := EncodeAll(crc, cs);
      assert bytes[0..] == bytes;
      EncodedAt(crc, cs[0], EncodeAll(crc, cs[1..]), bytes, 0);
      EncodedAt(crc, ds[0], EncodeAll(crc, ds[1..]), bytes, 0);
      EncodingUnique(crc, cs[1..], ds[1..]);
      assert cs == [cs[0]] + cs[1..] && ds == [ds[0]] + ds[1..];
    }
  }

  /** The bytes after the signature spell this accepted list of chunks. */
  ghost predicate Spells(crc: Checksum, color: Byte, body: Bytes, cs: seq<Chunk>) {
    AllFit(cs) && body == EncodeAll(crc, cs) && Grammar(color, cs)
  }

  lemma GrammarEnds(color: Byte, cs: seq<Chunk>)
    ensures Grammar(color, cs) <==> Rules(color, cs) && Has(cs, IEND)
  {
    if Rules(color, cs) && Has(cs, IEND) {
      var i :| 0 <= i < |cs| && cs[i].Is(IEND);
      assert i == |cs| - 1;
    }
  }

  /** The outcome of the whole walk: the compressed parts, unless something was rejected. */
  function Accepted(crc: Checksum, color: Byte, bytes: Bytes): Option<seq<Bytes>>
    requires |bytes| >= 8
  {
    match Walk(crc, color, bytes, 8, Start)
    case None => None
    case Some(s) => if s.ended then Some(s.idats) else None
  }

  /** Serialising a list and walking it back returns its image data if it is grammatical, and fails if not. */
  lemma WalkInvertsSerialiser(crc: Checksum, color: Byte, bytes: Bytes, cs: seq<Chunk>)
    requires AllFit(cs) && |bytes| >= 8 && bytes[8..] == EncodeAll(crc, cs)
    ensures Accepted(crc, color, bytes) == if Grammar(color, cs) then Some(Payloads(cs)) else None
  {
    WalkEncoded(crc, color, bytes, 8, [], cs);
    assert [] + cs == cs;
    RunMeetsRules(color, cs);
    GrammarEnds(color, cs);
  }

  /** The walk accepts exactly the bodies that spell a grammatical list, and returns its image data in order. */
  lemma WalkAccepts(crc: Checksum, color: Byte, bytes: Bytes)
    requires |bytes| >= 8
    ensures Accepted(crc, color, bytes).Some? <==> exists cs :: Spells(crc, color, bytes[8..], cs)
    ensures forall cs :: Spells(crc, color, bytes[8..], cs) ==> Accepted(crc, color, bytes) == Some(Payloads(cs))
  {
    if Accepted(crc, color, bytes).Some? {
      var cs := WalkDecodes(crc, color, bytes, 8, Start);
      WalkInvertsSerialiser(crc, color, bytes, cs);
      assert Spells(crc, color, bytes[8..], cs);
    }
    forall cs | Spells(crc, color, bytes[8..], cs)
      ensures Accepted(crc, color, bytes) == Some(Payloads(cs))
    {
      WalkInvertsSerialiser(crc, color, bytes, cs);
    }
  }

  /** The high bits of the type bytes are invisible to the ordering rules. */
  lemma HighBitsIgnored(color: Byte, first: bool, s: Walker, c: Chunk, d: Chunk)
    requires |c.rawType| == |d.rawType| && c.data == d.data
    requires forall i :: 0 <= i < |c.rawType| ==> c.rawType[i] % 128 == d.rawType[i] % 128
    ensures Step(color, first, s, c) == Step(color, first, s, d)
  {
    assert c.Name() == d.Name();
    assert c.Letters() <==> d.Letters();
    assert c.Ancillary() <==> d.Ancillary();
  }

  /** An accepted file holds at least a header, one data chunk and the end marker, and starts with the header. */
  lemma SpelledLength(crc: Checksum, color: Byte, bytes: Bytes, cs: seq<Chunk>)
    requires |bytes| >= 8 && Spells(crc, color, bytes[8..], cs)
    ensures |bytes| >= 57 && cs[0].Is(IHDR) && bytes[16..29] == cs[0].data
  {
    hide Encode;
    ThreeChunks(color, cs);
    hide Grammar;
    EncodedLength(crc, cs[1..]);
    EncodedAt(crc, cs[0], EncodeAll(crc, cs[1..]), bytes, 8);
  }

  /** A grammatical list starts with a header of 13 bytes and has at least an image part and an end after it. */
  lemma ThreeChunks(color: Byte, cs: seq<Chunk>)
    requires Grammar(color, cs)
    ensures |cs| >= 3 && cs[0].Is(IHDR) && |cs[0].data| == 13
  {
    var n := |cs|;
    assert cs[n - 1].Is(IEND);
    assert Has(cs[..n - 1], IDAT);
    var d :| 0 <= d < n - 1 && cs[..n - 1][d].Is(IDAT);
    NamesDistinct(cs[d]);
  }

  lemma {:induction false} EncodedLength(crc: Checksum, cs: seq<Chunk>)
    requires AllFit(cs)
    ensures |EncodeAll(crc, cs)| >= 12 * |cs|
  {
    if cs != [] {
      EncodedLength(crc, cs[1..]);
    }
  }

  /** The ordering tests on one chunk, with the source's local variables; `false` is the rejection. */
  method OrderChunk(color: Byte, first: bool, c: Chunk, palette: bool, dataEnded: bool, compressed: seq<Bytes>)
    returns (ok: bool, ended': bool, palette': bool, dataEnded': bool, compressed': seq<Bytes>)
    ensures Step(color, first, Walker(false, palette, dataEnded, compressed), c)
         == if ok then Some(Walker(ended', palette', dataEnded', compressed')) else None
  {
    NamesDistinct(c);
    ok, ended', palette', dataEnded', compressed' := false, false, palette, dataEnded, compressed;
    if !c.Letters() {
      return;
    }
    if if first then !c.Is(IHDR) || |c.data| != 13 else c.Is(IHDR) {
      return;
    }
    if c.Is(PLTE) {
      if palette || compressed != [] || |c.data| == 0 || |c.data| % 3 != 0 || |c.data| > 768 {
        return;
      }
      palette' := true;
    } else if c.Is(IDAT) {
      if dataEnded || (color == 3 && !palette) {
        return;
      }
      compressed' := compressed + [c.data];
    } else if c.Is(IEND) {
      if |c.data| != 0 || compressed == [] {
        return;
      }
      ended' := true;
    } else if !c.Is(IHDR) && !c.Ancillary() {
      return;
    }
    if compressed' != [] && !c.Is(IDAT) {
      dataEnded' := true;
    }
    ok := true;
  }

  /**
   * The loop over the chunks of a capture, with the source's local variables. `None` is the
   * rejection; otherwise the compressed parts in order.
   */
  method WalkChunks(crc: Checksum, bytes: Bytes, color: Byte) returns (r: Option<seq<Bytes>>)
    requires |bytes| >= 8
    ensures r == Accepted(crc, color, bytes)
  {
    hide Step, ReadWord;
    var compressed: seq<Bytes> := [];
    var ended, palette, dataEnded := false, false, false;
    var offset := 8;
    while offset < |bytes|
      invariant 8 <= offset <= |bytes|
      invariant Walk(crc, color, bytes, 8, Start)
             == Walk(crc, color, bytes, offset, Walker(ended, palette, dataEnded, compressed))
      decreases |bytes| - offset
    {
      if offset + 12 > |bytes| || ended {
        return None;
      }
      var length: nat := ReadWord(bytes, offset);
      var end := offset + length + 12;
      if end > |bytes| {
        return None;
      }
      if crc(bytes[offset + 4..end - 4]) != ReadWord(bytes, end - 4) {
        return None;
      }
      var c := Chunk(bytes[offset + 4..offset + 8], bytes[offset + 8..end - 4]);
      var ok;
      ok, ended, palette, dataEnded, compressed := OrderChunk(color, offset == 8, c, palette, dataEnded, compressed);
      if !ok {
        return None;
      }
      offset := end;
    }
    if !ended {
      return None;
    }
    return Some(compressed);
  }
}
