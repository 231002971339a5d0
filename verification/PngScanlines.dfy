/**
 * Scanline layout of a PNG capture, plain or interlaced with Adam7, and the streaming filter
 * check that reads the inflated data chunk by chunk
 * (apps/api/src/attachments/preview-capture-validation.ts, lines 78 to 130).
 */
module PngScanlines {
  import opened Common
  import opened PngChunks

  datatype Pass = Pass(x: nat, y: nat, dx: nat, dy: nat)

  const WholeImage: seq<Pass> := [Pass(0, 0, 1, 1)]

  const Adam7: seq<Pass> := [
    Pass(0, 0, 8, 8), Pass(4, 0, 8, 8), Pass(0, 4, 4, 8), Pass(2, 0, 4, 4),
    Pass(0, 2, 2, 4), Pass(1, 0, 2, 2), Pass(0, 1, 1, 2)]

  function Passes(interlaced: bool): seq<Pass> {
    if interlaced then Adam7 else WholeImage
  }

  /** How many of start, start + step, start + 2 * step, ... lie below size: max(0, ceil((size - start) / step)). */
  function Samples(size: nat, start: nat, step: nat): nat
    requires step > 0
  {
    if size <= start then 0 else (size - start + step - 1) / step
  }

  function BytesFor(bits: nat): nat {
    (bits + 7) / 8
  }

  datatype Row = Row(bytes: nat, count: nat)

  function PassRow(width: nat, height: nat, bitsPerPixel: nat, p: Pass): Row
    requires p.dx > 0 && p.dy > 0
  {
    Row(BytesFor(Samples(width, p.x, p.dx) * bitsPerPixel), Samples(height, p.y, p.dy))
  }

  predicate Occupied(r: Row) {
    r.bytes > 0 && r.count > 0
  }

  predicate ProperPasses(passes: seq<Pass>) {
    forall i :: 0 <= i < |passes| ==> passes[i].dx > 0 && passes[i].dy > 0
  }

  function RowsOf(width: nat, height: nat, bitsPerPixel: nat, passes: seq<Pass>): (rows: seq<Row>)
    requires ProperPasses(passes)
    ensures forall i :: 0 <= i < |rows| ==> Occupied(rows[i])
  {
    if passes == [] then []
    else
      var row := PassRow(width, height, bitsPerPixel, passes[0]);
      (if Occupied(row) then [row] else []) + RowsOf(width, height, bitsPerPixel, passes[1..])
  }

  /** The passes with at least one column and one line, in order, and no other. */
  lemma {:induction false} RowsAre(width: nat, height: nat, bitsPerPixel: nat, passes: seq<Pass>)
    requires ProperPasses(passes)
    ensures RowsOf(width, height, bitsPerPixel, passes) ==
            Filter((r: Row) => r.bytes >= 1 && r.count >= 1,
                   seq(|passes|, i requires 0 <= i < |passes| => PassRow(width, height, bitsPerPixel, passes[i])))
  {
    var all := seq(|passes|, i requires 0 <= i < |passes| => PassRow(width, height, bitsPerPixel, passes[i]));
    if passes != [] {
      RowsAre(width, height, bitsPerPixel, passes[1..]);
      var rest := seq(|passes| - 1, i requires 0 <= i < |passes| - 1 =>
                                      PassRow(width, height, bitsPerPixel, passes[1..][i]));
      hide PassRow;
      assert all == [all[0]] + rest;
      FilterConcat((r: Row) => r.bytes >= 1 && r.count >= 1, [all[0]], rest);
      FilterShort((r: Row) => r.bytes >= 1 && r.count >= 1, [all[0]]);
    }
  }

  function Rows(width: nat, height: nat, bitsPerPixel: nat, interlaced: bool): (rows: seq<Row>)
    ensures forall i :: 0 <= i < |rows| ==> Occupied(rows[i])
  {
    RowsOf(width, height, bitsPerPixel, Passes(interlaced))
  }

  function ExpectedBytes(rows: seq<Row>): nat {
    if rows == [] then 0 else (rows[0].bytes + 1) * rows[0].count + ExpectedBytes(rows[1..])
  }

  // ---- Every pixel is transmitted exactly once

  /** Pixel (px, py) is sample number `column` of line number `line` of pass p. */
  predicate Transmits(p: Pass, column: nat, line: nat, px: nat, py: nat) {
    px == p.x + column * p.dx && py == p.y + line * p.dy
  }

  predicate OnGrid(p: Pass, px: nat, py: nat)
    requires p.dx > 0 && p.dy > 0
  {
    px >= p.x && py >= p.y && (px - p.x) % p.dx == 0 && (py - p.y) % p.dy == 0
  }

  lemma SampleBelow(size: nat, start: nat, step: nat, k: nat)
    requires step in {1, 2, 4, 8}
    ensures k < Samples(size, start, step) <==> start + k * step < size
  {
  }

  lemma Congruent8(n: nat, start: nat)
    requires start < 8
    ensures n >= start && (n - start) % 8 == 0 <==> n % 8 == start
  {
  }

  lemma Congruent4(n: nat, start: nat)
    requires start < 4
    ensures n >= start && (n - start) % 4 == 0 <==> n % 8 % 4 == start
  {
    assert n % 4 == n % 8 % 4;
  }

  lemma Congruent2(n: nat, start: nat)
    requires start < 2
    ensures n >= start && (n - start) % 2 == 0 <==> n % 8 % 2 == start
  {
    assert n % 2 == n % 8 % 2;
  }

  lemma Congruent(n: nat, start: nat, step: nat)
    requires step in {1, 2, 4, 8} && start < step
    ensures n >= start && (n - start) % step == 0 <==> n % 8 % step == start
  {
    if step == 8 {
      Congruent8(n, start);
    } else if step == 4 {
      Congruent4(n, start);
    } else if step == 2 {
      Congruent2(n, start);
    }
  }

  /** The pass that carries the pixels with these residues modulo 8. */
  function PassOf(a: nat, b: nat): (i: nat)
    requires a < 8 && b < 8
    ensures i < 7
  {
    if b % 2 == 1 then 6
    else if a % 2 == 1 then 5
    else if b % 4 == 2 then 4
    else if a % 4 == 2 then 3
    else if b == 4 then 2
    else if a == 4 then 1
    else 0
  }

  lemma GridsPartition(i: nat, px: nat, py: nat)
    requires i < 7
    ensures OnGrid(Adam7[i], px, py) <==> i == PassOf(px % 8, py % 8)
  {
    OnGridMeans(Adam7[i], px, py);
    hide OnGrid;
    ResiduesPartition(i, px % 8, py % 8);
  }

  lemma OnGridMeans(p: Pass, px: nat, py: nat)
    requires p.dx in {1, 2, 4, 8} && p.dy in {1, 2, 4, 8} && p.x < p.dx && p.y < p.dy
    ensures OnGrid(p, px, py) <==> px % 8 % p.dx == p.x && py % 8 % p.dy == p.y
  {
    Congruent(px, p.x, p.dx);
    Congruent(py, p.y, p.dy);
  }

  lemma ResiduesPartition(i: nat, a: nat, b: nat)
    requires i < 7 && a < 8 && b < 8
    ensures a % Adam7[i].dx == Adam7[i].x && b % Adam7[i].dy == Adam7[i].y <==> i == PassOf(a, b)
  {
    if i == 0 {
    } else if i == 1 {
    } else if i == 2 {
    } else if i == 3 {
    } else if i == 4 {
    } else if i == 5 {
    }
  }

  lemma TransmittedWithin(p: Pass, width: nat, height: nat, px: nat, py: nat) returns (c: nat, l: nat)
    requires p.dx in {1, 2, 4, 8} && p.dy in {1, 2, 4, 8} && OnGrid(p, px, py) && px < width && py < height
    ensures Transmits(p, c, l, px, py) && c < Samples(width, p.x, p.dx) && l < Samples(height, p.y, p.dy)
  {
    c, l := (px - p.x) / p.dx, (py - p.y) / p.dy;
    SampleBelow(width, p.x, p.dx, c);
    SampleBelow(height, p.y, p.dy, l);
  }

  /** Each pixel of the image is a sample of some line of some pass. */
  lemma PixelCovered(width: nat, height: nat, px: nat, py: nat, interlaced: bool) returns (i: nat, c: nat, l: nat)
    requires px < width && py < height
    ensures var ps := Passes(interlaced);
            && i < |ps| && Transmits(ps[i], c, l, px, py)
            && c < Samples(width, ps[i].x, ps[i].dx) && l < Samples(height, ps[i].y, ps[i].dy)
  {
    i := if interlaced then PassOf(px % 8, py % 8) else 0;
    if interlaced {
      GridsPartition(i, px, py);
    }
    c, l := TransmittedWithin(Passes(interlaced)[i], width, height, px, py);
  }

  /** No pixel is transmitted twice. */
  lemma PixelCoveredOnce(px: nat, py: nat, interlaced: bool, i: nat, c: nat, l: nat, j: nat, d: nat, m: nat)
    requires i < |Passes(interlaced)| && Transmits(Passes(interlaced)[i], c, l, px, py)
    requires j < |Passes(interlaced)| && Transmits(Passes(interlaced)[j], d, m, px, py)
    ensures i == j && c == d && l == m
  {
    TransmitsOnGrid(Passes(interlaced)[i], c, l, px, py);
    TransmitsOnGrid(Passes(interlaced)[j], d, m, px, py);
    if interlaced {
      GridsPartition(i, px, py);
      GridsPartition(j, px, py);
    }
  }

  /** No sample lies outside the image. */
  lemma SamplesInside(width: nat, height: nat, interlaced: bool, i: nat, c: nat, l: nat)
    requires i < |Passes(interlaced)|
    requires var p := Passes(interlaced)[i]; c < Samples(width, p.x, p.dx) && l < Samples(height, p.y, p.dy)
    ensures var p := Passes(interlaced)[i]; p.x + c * p.dx < width && p.y + l * p.dy < height
  {
    var p := Passes(interlaced)[i];
    SampleBelow(width, p.x, p.dx, c);
    SampleBelow(height, p.y, p.dy, l);
  }

  lemma TransmitsOnGrid(p: Pass, c: nat, l: nat, px: nat, py: nat)
    requires p.dx in {1, 2, 4, 8} && p.dy in {1, 2, 4, 8} && Transmits(p, c, l, px, py)
    ensures OnGrid(p, px, py) && c == (px - p.x) / p.dx && l == (py - p.y) / p.dy
  {
  }

  function Area(width: nat, height: nat, passes: seq<Pass>): nat
    requires ProperPasses(passes)
  {
    if passes == [] then 0
    else Samples(width, passes[0].x, passes[0].dx) * Samples(height, passes[0].y, passes[0].dy)
         + Area(width, height, passes[1..])
  }

  /** Of the samples at every step, half (rounded up) lie on every second one. */
  lemma HalvesAdd(n: nat)
    ensures n == (n + 1) / 2 + n / 2
  {
  }

  lemma QuartersAdd(n: nat)
    ensures (n + 1) / 2 == (n + 3) / 4 + (n + 1) / 4
  {
    HalvesAdd((n + 1) / 2);
    HalfTwice(n + 1, 2);
    HalfTwice(n + 3, 2);
    assert (n + 3) / 2 == (n + 1) / 2 + 1;
  }

  lemma EighthsAdd(n: nat)
    ensures (n + 3) / 4 == (n + 7) / 8 + (n + 3) / 8
  {
    HalvesAdd((n + 3) / 4);
    HalfTwice(n + 3, 4);
    HalfTwice(n + 7, 4);
    assert (n + 7) / 4 == (n + 3) / 4 + 1;
  }

  lemma HalfTwice(n: nat, d: nat)
    requires d in {2, 4}
    ensures n / d / 2 == n / (2 * d)
  {
    if d == 2 {
      assert n / 2 / 2 == n / 4;
    } else {
      assert n / 4 / 2 == n / 8;
    }
  }

  /** Two interleaved grids of twice the step make one grid. */
  lemma SamplesSplit(size: nat)
    ensures Samples(size, 0, 4) == Samples(size, 0, 8) + Samples(size, 4, 8)
    ensures Samples(size, 0, 2) == Samples(size, 0, 4) + Samples(size, 2, 4)
    ensures size == Samples(size, 0, 2) + Samples(size, 1, 2)
  {
    HalvesAdd(size);
    QuartersAdd(size);
    EighthsAdd(size);
  }

  lemma Distribute(a: nat, b: nat, c: nat)
    ensures a * c + b * c == (a + b) * c && c * a + c * b == c * (a + b)
  {
  }

  /** The pass areas add up to the image area. */
  lemma AreaSums(width: nat, height: nat, interlaced: bool)
    ensures Area(width, height, Passes(interlaced)) == width * height
  {
    if interlaced {
      var w8, w4, w2 := Samples(width, 0, 8), Samples(width, 0, 4), Samples(width, 0, 2);
      var h8, h4, h2 := Samples(height, 0, 8), Samples(height, 0, 4), Samples(height, 0, 2);
      var v8, v4, v2 := Samples(width, 4, 8), Samples(width, 2, 4), Samples(width, 1, 2);
      var k8, k4, k2 := Samples(height, 4, 8), Samples(height, 2, 4), Samples(height, 1, 2);
      SamplesSplit(width);
      SamplesSplit(height);
      Area7(width, height);
      calc {
        w8 * h8 + v8 * h8 + w4 * k8 + v4 * h4 + w2 * k4 + v2 * h2 + width * k2;
        { Distribute(w8, v8, h8); }
        w4 * h8 + w4 * k8 + v4 * h4 + w2 * k4 + v2 * h2 + width * k2;
        { Distribute(h8, k8, w4); }
        w4 * h4 + v4 * h4 + w2 * k4 + v2 * h2 + width * k2;
        { Distribute(w4, v4, h4); }
        w2 * h4 + w2 * k4 + v2 * h2 + width * k2;
        { Distribute(h4, k4, w2); }
        w2 * h2 + v2 * h2 + width * k2;
        { Distribute(w2, v2, h2); }
        width * h2 + width * k2;
        { Distribute(h2, k2, width); }
        width * height;
      }
    } else {
      assert WholeImage[1..] == [];
      assert Samples(width, 0, 1) == width && Samples(height, 0, 1) == height;
    }
  }

  lemma Area7(width: nat, height: nat)
    ensures Area(width, height, Adam7) ==
            Samples(width, 0, 8) * Samples(height, 0, 8) + Samples(width, 4, 8) * Samples(height, 0, 8)
            + Samples(width, 0, 4) * Samples(height, 4, 8) + Samples(width, 2, 4) * Samples(height, 0, 4)
            + Samples(width, 0, 2) * Samples(height, 2, 4) + Samples(width, 1, 2) * Samples(height, 0, 2)
            + Samples(width, 0, 1) * Samples(height, 1, 2)
    ensures Samples(width, 0, 1) == width
  {
    AreaSuffix(width, height, 0); AreaSuffix(width, height, 1); AreaSuffix(width, height, 2);
    AreaSuffix(width, height, 3); AreaSuffix(width, height, 4); AreaSuffix(width, height, 5);
    AreaSuffix(width, height, 6);
    assert Adam7[7..] == [] && Adam7[0..] == Adam7;
  }

  lemma AreaSuffix(width: nat, height: nat, i: nat)
    requires i < 7
    ensures Area(width, height, Adam7[i..]) ==
            Samples(width, Adam7[i].x, Adam7[i].dx) * Samples(height, Adam7[i].y, Adam7[i].dy)
            + Area(width, height, Adam7[i + 1..])
  {
    assert Adam7[i..][1..] == Adam7[i + 1..] && Adam7[i..][0] == Adam7[i];
  }

  function Lines(rows: seq<Row>): nat {
    if rows == [] then 0 else rows[0].count + Lines(rows[1..])
  }

  /** Per pass: each line costs its pixel bits, one filter byte, and less than one byte of padding. */
  lemma LineCost(samples: nat, lines: nat, bits: nat)
    ensures (BytesFor(samples * bits) + 1) * lines * 8 >= samples * lines * bits + 8 * lines
    ensures (BytesFor(samples * bits) + 1) * lines * 8 <= samples * lines * bits + 15 * lines
  {
    var b := samples * bits;
    assert b <= BytesFor(b) * 8 <= b + 7;
    hide BytesFor;
    PaddedCost(BytesFor(b), b, lines);
    Reorder(samples, bits, lines);
  }

  lemma Reorder(a: nat, b: nat, c: nat)
    ensures a * b * c == a * c * b
  {
  }

  lemma PaddedCost(bytes: nat, bits: nat, lines: nat)
    requires bits <= bytes * 8 <= bits + 7
    ensures bits * lines + 8 * lines <= (bytes + 1) * lines * 8 <= bits * lines + 15 * lines
  {
    Distribute(bits, 8, lines);
    Distribute(bits, 15, lines);
    Reorder(bytes + 1, lines, 8);
    MulMono(bits + 8, (bytes + 1) * 8, lines);
    MulMono((bytes + 1) * 8, bits + 15, lines);
  }

  lemma MulMono(a: nat, b: nat, c: nat)
    requires a <= b
    ensures a * c <= b * c
  {
  }

  lemma {:induction false} LayoutCost(width: nat, height: nat, bits: nat, passes: seq<Pass>)
    requires ProperPasses(passes) && bits > 0
    ensures Costs(RowsOf(width, height, bits, passes), Area(width, height, passes), bits)
  {
    if passes != [] {
      var p := passes[0];
      var samples, row := Samples(width, p.x, p.dx), PassRow(width, height, bits, p);
      var tail, rest := RowsOf(width, height, bits, passes[1..]), Area(width, height, passes[1..]);
      FirstPass(width, height, bits, passes);
      hide *;
      LayoutCost(width, height, bits, passes[1..]);
      CostsAdd(row, tail, samples, rest, bits);
    }
  }

  /** All pixel bits and, for each line, at least one byte and less than two. */
  predicate Costs(rows: seq<Row>, area: nat, bits: nat) {
    && ExpectedBytes(rows) * 8 >= area * bits + 8 * Lines(rows)
    && ExpectedBytes(rows) * 8 <= area * bits + 15 * Lines(rows)
  }

  lemma CostsAdd(row: Row, tail: seq<Row>, samples: nat, rest: nat, bits: nat)
    requires bits > 0 && row.bytes == BytesFor(samples * bits) && Costs(tail, rest, bits)
    ensures Costs((if Occupied(row) then [row] else []) + tail, samples * row.count + rest, bits)
  {
    var area := samples * row.count;
    RowAdds(row, tail, samples, area, bits);
    hide BytesFor, ExpectedBytes, Lines, Occupied;
    Distribute(area, rest, bits);
  }

  lemma FirstPass(width: nat, height: nat, bits: nat, passes: seq<Pass>)
    requires ProperPasses(passes) && passes != []
    ensures var row := PassRow(width, height, bits, passes[0]);
            && RowsOf(width, height, bits, passes)
               == (if Occupied(row) then [row] else []) + RowsOf(width, height, bits, passes[1..])
            && Area(width, height, passes)
               == Samples(width, passes[0].x, passes[0].dx) * row.count + Area(width, height, passes[1..])
            && row.bytes == BytesFor(Samples(width, passes[0].x, passes[0].dx) * bits)
  {
    hide Samples, BytesFor;
  }

  /** What one pass contributes to the expected size and to the number of lines. */
  lemma RowAdds(row: Row, tail: seq<Row>, samples: nat, area: nat, bits: nat)
    requires bits > 0 && row.bytes == BytesFor(samples * bits) && area == samples * row.count
    ensures var rows := (if Occupied(row) then [row] else []) + tail;
            && ExpectedBytes(rows) * 8 >= ExpectedBytes(tail) * 8 + area * bits + 8 * (Lines(rows) - Lines(tail))
            && ExpectedBytes(rows) * 8 <= ExpectedBytes(tail) * 8 + area * bits + 15 * (Lines(rows) - Lines(tail))
  {
    if Occupied(row) {
      LineCost(samples, row.count, bits);
      assert ([row] + tail)[1..] == tail;
    } else {
      EmptyPass(samples, row.count, bits);
      assert [] + tail == tail;
    }
  }

  lemma EmptyPass(samples: nat, lines: nat, bits: nat)
    requires bits > 0 && !Occupied(Row(BytesFor(samples * bits), lines))
    ensures samples * lines == 0
  {
    if samples > 0 {
      MulMono(1, samples, bits);
    }
  }

  /**
   * The expected size: all pixel bits plus, for each transmitted scanline, at least one byte and
   * less than two (the filter byte and up to seven bits of padding).
   */
  lemma ExpectedBytesBounds(width: nat, height: nat, bits: nat, interlaced: bool)
    requires bits > 0
    ensures var rows := Rows(width, height, bits, interlaced);
            width * height * bits + 8 * Lines(rows) <= 8 * ExpectedBytes(rows)
            <= width * height * bits + 15 * Lines(rows)
  {
    LayoutCost(width, height, bits, Passes(interlaced));
    AreaSums(width, height, interlaced);
  }

  // ---- The streaming check

  /** Offset of line r of pass p in the inflated data. */
  function LineStart(rows: seq<Row>, p: nat, r: nat): nat
    requires p < |rows|
  {
    ExpectedBytes(rows[..p]) + r * (rows[p].bytes + 1)
  }

  /** The reference check on the whole inflated data: its length, and a filter type of 0 to 4 on every line. */
  ghost predicate WholeDataOk(rows: seq<Row>, data: Bytes) {
    && |data| == ExpectedBytes(rows)
    && forall p, r :: 0 <= p < |rows| && 0 <= r < rows[p].count ==>
         LineStart(rows, p, r) < |data| && data[LineStart(rows, p, r)] <= 4
  }

  lemma ExpectedSnoc(rows: seq<Row>, p: nat)
    requires p < |rows|
    ensures ExpectedBytes(rows[..p + 1]) == ExpectedBytes(rows[..p]) + (rows[p].bytes + 1) * rows[p].count
  {
    ExpectedConcat(rows[..p], [rows[p]]);
    assert rows[..p] + [rows[p]] == rows[..p + 1];
    assert [rows[p]][1..] == [];
  }

  lemma {:induction false} ExpectedConcat(a: seq<Row>, b: seq<Row>)
    ensures ExpectedBytes(a + b) == ExpectedBytes(a) + ExpectedBytes(b)
  {
    if a == [] {
      assert a + b == b;
    } else {
      assert (a + b)[1..] == a[1..] + b;
      ExpectedConcat(a[1..], b);
    }
  }

  lemma StartBelowTotal(rows: seq<Row>, p: nat, r: nat)
    requires p < |rows| && r < rows[p].count
    ensures LineStart(rows, p, r) + rows[p].bytes + 1 <= ExpectedBytes(rows[..p + 1]) <= ExpectedBytes(rows)
  {
    var b, count := rows[p].bytes + 1, rows[p].count;
    assert r * b + b <= b * count by {
      MulMono(r + 1, count, b);
    }
    ExpectedSnoc(rows, p);
    ExpectedConcat(rows[..p + 1], rows[p + 1..]);
    assert rows[..p + 1] + rows[p + 1..] == rows;
    hide ExpectedBytes;
  }

  /** The line at which the check stands; past the last pass, the end of the data. */
  function Cursor(rows: seq<Row>, p: nat, r: nat): nat
    requires p <= |rows|
  {
    if p < |rows| then LineStart(rows, p, r) else ExpectedBytes(rows)
  }

  lemma CursorAdvances(rows: seq<Row>, p: nat, r: nat)
    requires p < |rows| && r < rows[p].count
    ensures var last := r + 1 == rows[p].count;
            Cursor(rows, if last then p + 1 else p, if last then 0 else r + 1)
            == LineStart(rows, p, r) + rows[p].bytes + 1
  {
    ExpectedSnoc(rows, p);
    assert p + 1 == |rows| ==> rows[..p + 1] == rows;
    hide ExpectedBytes;
    Distribute(r, 1, rows[p].bytes + 1);
  }

  predicate Earlier(p: nat, r: nat, q: nat, t: nat) {
    p < q || (p == q && r < t)
  }

  /** All lines before the cursor have passed their filter test. */
  ghost predicate CheckedBefore(rows: seq<Row>, data: Bytes, q: nat, t: nat) {
    forall p, r :: 0 <= p < |rows| && 0 <= r < rows[p].count && Earlier(p, r, q, t) ==>
      LineStart(rows, p, r) < |data| && data[LineStart(rows, p, r)] <= 4
  }

  lemma LineChecked(rows: seq<Row>, data: Bytes, p: nat, r: nat)
    requires p < |rows| && r < rows[p].count && CheckedBefore(rows, data, p, r)
    requires LineStart(rows, p, r) < |data| && data[LineStart(rows, p, r)] <= 4
    ensures var last := r + 1 == rows[p].count;
            CheckedBefore(rows, data, if last then p + 1 else p, if last then 0 else r + 1)
  {
    hide LineStart;
  }

  lemma NothingChecked(rows: seq<Row>, data: Bytes)
    ensures CheckedBefore(rows, data, 0, 0)
    ensures Cursor(rows, 0, 0) == 0
  {
    assert rows[..0] == [];
  }

  lemma WrongLength(rows: seq<Row>, data: Bytes)
    requires |data| != ExpectedBytes(rows)
    ensures !WholeDataOk(rows, data)
  {
  }

  lemma BadLine(rows: seq<Row>, data: Bytes, p: nat, r: nat)
    requires p < |rows| && r < rows[p].count && LineStart(rows, p, r) < |data| && data[LineStart(rows, p, r)] > 4
    ensures !WholeDataOk(rows, data)
  {
  }

  lemma AllChecked(rows: seq<Row>, data: Bytes, p: nat, r: nat)
    requires p <= |rows| && r < (if p < |rows| then rows[p].count else 1)
    requires |data| == ExpectedBytes(rows) <= Cursor(rows, p, r) && CheckedBefore(rows, data, p, r)
    ensures WholeDataOk(rows, data)
  {
    if p < |rows| {
      StartBelowTotal(rows, p, r);
    }
    hide LineStart;
    assert CheckedBefore(rows, data, |rows|, 0);
  }

  /**
   * The streaming check, with the source's local variables. Whatever the inflater's cuts, the
   * verdict is that of the reference check on the concatenation, which is never built.
   */
  method CheckStream(rows: seq<Row>, chunks: seq<Bytes>) returns (ok: bool)
    requires forall i :: 0 <= i < |rows| ==> Occupied(rows[i])
    ensures ok <==> WholeDataOk(rows, Flatten(chunks))
  {
    var expectedBytes := ExpectedBytes(rows);
    var decodedBytes, filterOffset, passIndex, rowIndex := 0, 0, 0, 0;
    ghost var all := Flatten(chunks);
    assert Flatten(chunks[..0]) == [];
    NothingChecked(rows, all);
    hide Flatten, WholeDataOk, CheckedBefore;
    for n := 0 to |chunks|
      invariant decodedBytes == |Flatten(chunks[..n])| <= expectedBytes
      invariant passIndex <= |rows| && rowIndex < (if passIndex < |rows| then rows[passIndex].count else 1)
      invariant filterOffset == Cursor(rows, passIndex, rowIndex) >= decodedBytes
      invariant CheckedBefore(rows, all, passIndex, rowIndex)
    {
      var chunk := chunks[n];
      var end := decodedBytes + |chunk|;
      FlattenNext(chunks, n);
      FlattenSplit(chunks, n + 1);
      if end > expectedBytes {
        WrongLength(rows, all);
        return false;
      }
      while filterOffset < end
        invariant passIndex <= |rows| && rowIndex < (if passIndex < |rows| then rows[passIndex].count else 1)
        invariant filterOffset == Cursor(rows, passIndex, rowIndex) >= decodedBytes
        invariant CheckedBefore(rows, all, passIndex, rowIndex)
        decreases end - filterOffset
      {
        assert all[filterOffset] == chunk[filterOffset - decodedBytes];
        if chunk[filterOffset - decodedBytes] > 4 {
          BadLine(rows, all, passIndex, rowIndex);
          return false;
        }
        hide ExpectedBytes;
        var pass := rows[passIndex];
        CursorAdvances(rows, passIndex, rowIndex);
        LineChecked(rows, all, passIndex, rowIndex);
        filterOffset := filterOffset + pass.bytes + 1;
        rowIndex := rowIndex + 1;
        if rowIndex == pass.count {
          passIndex := passIndex + 1;
          rowIndex := 0;
        }
      }
      decodedBytes := end;
    }
    assert chunks[..|chunks|] == chunks;
    if decodedBytes != expectedBytes {
      WrongLength(rows, all);
      return false;
    }
    AllChecked(rows, all, passIndex, rowIndex);
    return true;
  }
}
