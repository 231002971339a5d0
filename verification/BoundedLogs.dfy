/**
 * Output that is kept within a bound: validation logs that are compacted
 * (packages/local-agent/src/checks/validation-log.ts,
 * packages/local-agent/src/checks/host-check-command-executor.ts, lines 58 to 73), and git output
 * that is cut off (packages/local-agent/src/git/diff.service.ts, lines 161 to 209).
 * Which lines are diagnostic is a parameter.
 */
module BoundedLogs {
  import opened Common
  import HarnessOutput

  const SECTION := "[Validation failure context]"
  const COMPACTED := "[Earlier validation output compacted]"
  const MAX_LINE := 1000

  lemma LabelLengths()
    ensures |SECTION| == 28 && |COMPACTED| == 37
  {
  }

  // ---- Compaction

  /** The first occurrence of each line. */
  function Unique(lines: seq<string>): seq<string> {
    if lines == [] then []
    else
      var init, last := Unique(lines[..|lines| - 1]), lines[|lines| - 1];
      if last in init then init else init + [last]
  }

  function First(s: string, n: nat): string {
    if n < |s| then s[..n] else s
  }

  /** `slice(-n)` of the source, which keeps everything when `n` is 0. */
  function LastOf(s: string, n: nat): string {
    if 0 < n < |s| then s[|s| - n..] else s
  }

  /** The diagnostic lines, each once and cut to a thousand characters. */
  function Diagnostics(isDiagnostic: string -> bool, logs: string): seq<string> {
    var lines := Map(line => HarnessOutput.Trim(line), HarnessOutput.Split(logs));
    Map(line => First(line, MAX_LINE), Unique(Filter((line: string) => line != "" && isDiagnostic(line), lines)))
  }

  function Budget(max: nat): nat {
    2 * max / 5
  }

  function Context(isDiagnostic: string -> bool, logs: string, max: nat): string {
    var lines := Diagnostics(isDiagnostic, logs);
    First(if lines == [] then "" else HarnessOutput.Join(lines), Budget(max))
  }

  function Prefix(isDiagnostic: string -> bool, logs: string, max: nat): string {
    var context := Context(isDiagnostic, logs, max);
    if context != [] then SECTION + "\n" + context + "\n" + COMPACTED + "\n" else COMPACTED + "\n"
  }

  function Compact(isDiagnostic: string -> bool, logs: string, max: nat): string {
    if |logs| <= max then logs
    else
      var prefix := Prefix(isDiagnostic, logs, max);
      prefix + LastOf(logs, if |prefix| < max then max - |prefix| else 0)
  }

  lemma PrefixLength(isDiagnostic: string -> bool, logs: string, max: nat)
    ensures var context := Context(isDiagnostic, logs, max);
            && |context| <= Budget(max)
            && |Prefix(isDiagnostic, logs, max)| == if context == [] then 38 else 68 + |context|
  {
    LabelLengths();
    hide SECTION, COMPACTED, Diagnostics, HarnessOutput.Join;
  }

  /**
   * Compacted logs have the length of the input or the maximum, whichever is smaller, exactly when the
   * labels leave room.
   */
  lemma CompactLength(isDiagnostic: string -> bool, logs: string, max: nat)
    ensures |Compact(isDiagnostic, logs, max)| == (if |logs| <= max then |logs| else max)
            <==> |logs| <= max || |Prefix(isDiagnostic, logs, max)| < max
    ensures |logs| > max && |Prefix(isDiagnostic, logs, max)| >= max ==> |Compact(isDiagnostic, logs, max)| > |logs|
  {
    PrefixLength(isDiagnostic, logs, max);
    hide Prefix;
  }

  /** They always leave room from 114 characters on. */
  lemma RoomFrom114(isDiagnostic: string -> bool, logs: string, max: nat)
    requires max >= 114
    ensures |Prefix(isDiagnostic, logs, max)| < max
  {
    PrefixLength(isDiagnostic, logs, max);
    hide Prefix, Context;
    assert 5 * Budget(max) <= 2 * max;
  }

  /** At 113, 45 characters of diagnostics fill the whole room, and the logs grow instead of shrinking. */
  lemma NoRoomAt113(isDiagnostic: string -> bool, logs: string)
    requires |logs| > 113 && |Context(isDiagnostic, logs, 113)| == 45
    ensures |Compact(isDiagnostic, logs, 113)| == 113 + |logs|
  {
    PrefixLength(isDiagnostic, logs, 113);
    hide Prefix, Context;
  }

  predicate NoRepeats(lines: seq<string>) {
    forall i, j :: 0 <= i < j < |lines| ==> lines[i] != lines[j]
  }

  /** Every line stays once, in the order in which the lines first occur. */
  lemma {:induction false} UniqueMeans(lines: seq<string>)
    ensures NoRepeats(Unique(lines)) && forall l :: l in Unique(lines) <==> l in lines
    ensures forall n :: 0 <= n <= |lines| ==> Unique(lines[..n]) <= Unique(lines)
  {
    if lines != [] {
      var init, last := lines[..|lines| - 1], lines[|lines| - 1];
      assert lines == init + [last] && lines[..|lines|] == lines;
      UniqueMeans(init);
      assert Unique(init) <= Unique(lines);
      assert forall n :: 0 <= n <= |init| ==> lines[..n] == init[..n];
      hide Unique;
      forall n | 0 <= n <= |lines|
        ensures Unique(lines[..n]) <= Unique(lines)
      {
        assert n <= |init| ==> Unique(init[..n]) <= Unique(init);
      }
    }
  }

  /** A line of the log that is diagnostic, without white space at its ends. */
  ghost predicate IsDiagnosticOf(isDiagnostic: string -> bool, logs: string, line: string) {
    && line != "" && isDiagnostic(line)
    && exists l :: l in HarnessOutput.Split(logs) && HarnessOutput.Trim(l) == line
  }

  /** The diagnostics are the diagnostic lines of the log, each once before it is cut to a thousand characters. */
  lemma DiagnosticsMean(isDiagnostic: string -> bool, logs: string) returns (lines: seq<string>)
    ensures NoRepeats(lines) && forall l :: l in lines <==> IsDiagnosticOf(isDiagnostic, logs, l)
    ensures |Diagnostics(isDiagnostic, logs)| == |lines|
    ensures forall i :: 0 <= i < |lines| ==>
              Diagnostics(isDiagnostic, logs)[i] == if |lines[i]| <= 1000 then lines[i] else lines[i][..1000]
  {
    var pieces := HarnessOutput.Split(logs);
    var trimmed := Map(line => HarnessOutput.Trim(line), pieces);
    var found := Filter((line: string) => line != "" && isDiagnostic(line), trimmed);
    FilterMembers((line: string) => line != "" && isDiagnostic(line), trimmed);
    UniqueMeans(found);
    lines := Unique(found);
    hide Unique, Filter, HarnessOutput.Split, HarnessOutput.Trim;
    TrimmedMembers(pieces, trimmed);
  }

  lemma TrimmedMembers(pieces: seq<string>, trimmed: seq<string>)
    requires |trimmed| == |pieces| && forall i :: 0 <= i < |pieces| ==> trimmed[i] == HarnessOutput.Trim(pieces[i])
    ensures forall t :: t in trimmed <==> exists l :: l in pieces && HarnessOutput.Trim(l) == t
  {
    hide HarnessOutput.Trim;
    forall t
      ensures t in trimmed <==> exists l :: l in pieces && HarnessOutput.Trim(l) == t
    {
      if i :| 0 <= i < |trimmed| && trimmed[i] == t {
        assert pieces[i] in pieces;
      }
      if l :| l in pieces && HarnessOutput.Trim(l) == t {
        var i :| 0 <= i < |pieces| && pieces[i] == l;
        assert trimmed[i] == t;
      }
    }
  }

  /** The labels around the diagnostics, which have a section of their own if there are any. */
  function WithLabels(context: string): string {
    (if context == "" then "" else "[Validation failure context]\n" + context + "\n")
    + "[Earlier validation output compacted]\n"
  }

  /**
   * The form of compacted logs: the first two fifths of the maximum for the diagnostics, the labels, and then the end
   * of the log for the rest of the maximum.
   */
  lemma CompactShape(isDiagnostic: string -> bool, logs: string, max: nat) returns (joined: string)
    requires |logs| > max
    ensures var diagnostics := Diagnostics(isDiagnostic, logs);
            joined == if diagnostics == [] then "" else HarnessOutput.Join(diagnostics)
    ensures var prefix := WithLabels(if |joined| <= 2 * max / 5 then joined else joined[..2 * max / 5]);
            Compact(isDiagnostic, logs, max) ==
            prefix + if |prefix| < max then logs[|logs| - (max - |prefix|)..] else logs
  {
    hide *;
    var diagnostics := Diagnostics(isDiagnostic, logs);
    joined := if diagnostics == [] then "" else HarnessOutput.Join(diagnostics);
    ContextShape(isDiagnostic, logs, max, joined);
    PrefixLabels(isDiagnostic, logs, max);
    TailShape(isDiagnostic, logs, max);
  }

  lemma ContextShape(isDiagnostic: string -> bool, logs: string, max: nat, joined: string)
    requires var diagnostics := Diagnostics(isDiagnostic, logs);
             joined == if diagnostics == [] then "" else HarnessOutput.Join(diagnostics)
    ensures Context(isDiagnostic, logs, max) == if |joined| <= 2 * max / 5 then joined else joined[..2 * max / 5]
  {
    hide Diagnostics, HarnessOutput.Join;
  }

  lemma TailShape(isDiagnostic: string -> bool, logs: string, max: nat)
    requires |logs| > max
    ensures var prefix := Prefix(isDiagnostic, logs, max);
            Compact(isDiagnostic, logs, max) ==
            prefix + if |prefix| < max then logs[|logs| - (max - |prefix|)..] else logs
  {
    hide Prefix;
  }

  lemma PrefixLabels(isDiagnostic: string -> bool, logs: string, max: nat)
    ensures Prefix(isDiagnostic, logs, max) == WithLabels(Context(isDiagnostic, logs, max))
  {
    var context := Context(isDiagnostic, logs, max);
    hide Context;
    assert SECTION + "\n" == "[Validation failure context]\n";
    assert COMPACTED + "\n" == "[Earlier validation output compacted]\n";
    assert SECTION + "\n" + context + "\n" + COMPACTED + "\n"
        == SECTION + "\n" + context + "\n" + (COMPACTED + "\n");
  }

  lemma UniqueSingle(line: string)
    ensures Unique([line]) == [line]
  {
    assert [line][..0] == [];
    assert Unique([]) == [];
  }

  lemma {:induction false} NoNewlineSplit(line: string)
    requires '\n' !in line
    ensures HarnessOutput.Split(line) == [line]
  {
    if line != [] {
      assert line[0] in line;
      NoNewlineSplit(line[1..]);
      assert line == [line[0]] + line[1..];
    }
  }

  /** A log of one diagnostic line. */
  lemma OneLineContext(isDiagnostic: string -> bool, line: string, max: nat)
    requires '\n' !in line && HarnessOutput.Trim(line) == line && line != "" && isDiagnostic(line)
    ensures Context(isDiagnostic, line, max) == First(First(line, MAX_LINE), Budget(max))
  {
    NoNewlineSplit(line);
    var lines := Map(l => HarnessOutput.Trim(l), HarnessOutput.Split(line));
    assert lines == [line];
    FilterShort((l: string) => l != "" && isDiagnostic(l), [line]);
    UniqueSingle(line);
    assert Diagnostics(isDiagnostic, line) == [First(line, MAX_LINE)];
    hide HarnessOutput.Split, HarnessOutput.Trim, First;
    assert HarnessOutput.Join([First(line, MAX_LINE)]) == First(line, MAX_LINE);
  }

  lemma LongLineFills(isDiagnostic: string -> bool, line: string, max: nat)
    requires '\n' !in line && HarnessOutput.Trim(line) == line && isDiagnostic(line)
    requires 113 < |line| <= MAX_LINE && max < 114
    ensures |line| > max && |Prefix(isDiagnostic, line, max)| >= max
  {
    OneLineContext(isDiagnostic, line, max);
    PrefixLength(isDiagnostic, line, max);
    hide Prefix, Context;
    assert 5 * Budget(max) > 2 * max - 5;
  }

  /** If some line of 114 to 1000 characters is diagnostic, all logs leave room exactly from a maximum of 114 on. */
  lemma RoomThreshold(isDiagnostic: string -> bool, line: string, max: nat)
    requires '\n' !in line && HarnessOutput.Trim(line) == line && isDiagnostic(line) && 113 < |line| <= MAX_LINE
    ensures (forall logs :: |logs| > max ==> |Prefix(isDiagnostic, logs, max)| < max) <==> max >= 114
  {
    if max >= 114 {
      forall logs
        ensures |Prefix(isDiagnostic, logs, max)| < max
      {
        RoomFrom114(isDiagnostic, logs, max);
      }
    } else {
      LongLineFills(isDiagnostic, line, max);
    }
  }

  /** Compacting twice is compacting once. */
  lemma CompactIdempotent(isDiagnostic: string -> bool, logs: string, max: nat)
    requires max >= 114
    ensures Compact(isDiagnostic, Compact(isDiagnostic, logs, max), max) == Compact(isDiagnostic, logs, max)
    ensures |Compact(isDiagnostic, logs, max)| == if |logs| <= max then |logs| else max
  {
    CompactLength(isDiagnostic, logs, max);
    RoomFrom114(isDiagnostic, logs, max);
    hide Prefix;
  }

  // ---- The executor's buffer

  /** The logs after a stream of chunks. */
  function Buffered(isDiagnostic: string -> bool, chunks: seq<string>, max: nat): string {
    if chunks == [] then ""
    else Compact(isDiagnostic, Buffered(isDiagnostic, chunks[..|chunks| - 1], max) + chunks[|chunks| - 1], max)
  }

  class HostCheckCommandExecutor {
    const isDiagnostic: string -> bool
    const maximumLength: nat
    var logs: string
    ghost var chunks: seq<string>

    ghost predicate Valid()
      reads this
    {
      logs == Buffered(isDiagnostic, chunks, maximumLength)
    }

    constructor (isDiagnostic: string -> bool, maximumLength: nat)
      ensures Valid() && chunks == [] && this.maximumLength == maximumLength && this.isDiagnostic == isDiagnostic
    {
      this.isDiagnostic, this.maximumLength := isDiagnostic, maximumLength;
      logs, chunks := "", [];
    }

    method AppendLogs(chunk: string)
      requires Valid()
      modifies this
      ensures Valid() && chunks == old(chunks) + [chunk]
    {
      hide Compact;
      assert (chunks + [chunk])[..|chunks|] == chunks;
      logs := Compact(isDiagnostic, logs + chunk, maximumLength);
      chunks := chunks + [chunk];
    }
  }

  /** How much of the end of the stream always survives. */
  function Surviving(max: nat): nat
    requires max >= 114
  {
    assert 5 * Budget(max) <= 2 * max;
    max - 68 - Budget(max)
  }

  predicate SameEnd(a: string, b: string, n: nat) {
    n <= |a| && n <= |b| && a[|a| - n..] == b[|b| - n..]
  }

  lemma SameEndAppend(a: string, b: string, n: nat, chunk: string)
    requires SameEnd(a, b, n)
    ensures SameEnd(a + chunk, b + chunk, n + |chunk|)
  {
    assert (a + chunk)[|a + chunk| - (n + |chunk|)..] == a[|a| - n..] + chunk;
    assert (b + chunk)[|b + chunk| - (n + |chunk|)..] == b[|b| - n..] + chunk;
  }

  lemma SameEndShorter(a: string, b: string, n: nat, m: nat)
    requires SameEnd(a, b, n) && m <= n
    ensures SameEnd(a, b, m)
  {
    assert a[|a| - m..] == a[|a| - n..][n - m..] && b[|b| - m..] == b[|b| - n..][n - m..];
  }

  lemma SameEndTransitive(a: string, b: string, c: string, n: nat)
    requires SameEnd(a, b, n) && SameEnd(b, c, n)
    ensures SameEnd(a, c, n)
  {
  }

  lemma EndOfTail(prefix: string, logs: string, k: nat, n: nat)
    requires n <= k <= |logs|
    ensures SameEnd(prefix + logs[|logs| - k..], logs, n)
  {
    var tail := logs[|logs| - k..];
    assert (prefix + tail)[|prefix + tail| - n..] == tail[k - n..];
    assert tail[k - n..] == logs[|logs| - n..];
  }

  lemma CompactIs(isDiagnostic: string -> bool, logs: string, max: nat)
    requires |logs| > max && |Prefix(isDiagnostic, logs, max)| < max
    ensures var prefix := Prefix(isDiagnostic, logs, max);
            Compact(isDiagnostic, logs, max) == prefix + logs[|logs| - (max - |prefix|)..]
  {
    hide Prefix;
  }

  lemma SurvivingFits(isDiagnostic: string -> bool, logs: string, max: nat)
    requires max >= 114
    ensures Surviving(max) <= max - |Prefix(isDiagnostic, logs, max)| && Surviving(max) <= max
  {
    PrefixLength(isDiagnostic, logs, max);
    hide Prefix, Context;
  }

  /** A compaction keeps that much of the end. */
  lemma CompactKeepsEnd(isDiagnostic: string -> bool, logs: string, max: nat)
    requires max >= 114
    ensures SameEnd(Compact(isDiagnostic, logs, max), logs, Min(|logs|, Surviving(max)))
  {
    if |logs| <= max {
      assert Compact(isDiagnostic, logs, max) == logs;
    } else {
      RoomFrom114(isDiagnostic, logs, max);
      SurvivingFits(isDiagnostic, logs, max);
      CompactIs(isDiagnostic, logs, max);
      var prefix := Prefix(isDiagnostic, logs, max);
      hide Compact, Surviving, SameEnd, Prefix;
      EndOfTail(prefix, logs, max - |prefix|, Surviving(max));
    }
  }

  /** One chunk more. */
  lemma ChunkBounded(isDiagnostic: string -> bool, before: string, stream: string, chunk: string, max: nat)
    requires max >= 114 && SameEnd(before, stream, Min(|stream|, Surviving(max)))
    ensures |Compact(isDiagnostic, before + chunk, max)| <= max
    ensures SameEnd(Compact(isDiagnostic, before + chunk, max), stream + chunk, Min(|stream + chunk|, Surviving(max)))
  {
    CompactIdempotent(isDiagnostic, before + chunk, max);
    CompactKeepsEnd(isDiagnostic, before + chunk, max);
    hide Compact, Surviving, SameEnd;
    var logs := Compact(isDiagnostic, before + chunk, max);
    var shared, n := Min(|stream|, Surviving(max)), Min(|stream + chunk|, Surviving(max));
    SameEndAppend(before, stream, shared, chunk);
    SameEndShorter(before + chunk, stream + chunk, shared + |chunk|, n);
    EndFits(before, stream, shared);
    SameEndShorter(logs, before + chunk, Min(|before + chunk|, Surviving(max)), n);
    SameEndTransitive(logs, before + chunk, stream + chunk, n);
  }

  lemma EndFits(a: string, b: string, n: nat)
    requires SameEnd(a, b, n)
    ensures n <= |a| && n <= |b|
  {
  }

  /** What survives is three fifths of the maximum, less the 68 characters of the labels. */
  lemma SurvivingMeans(max: nat)
    requires max >= 114
    ensures 3 * max <= 5 * (Surviving(max) + 68) < 3 * max + 5
  {
  }

  /** For every chunk stream the buffer stays within the maximum and ends as the stream does. */
  lemma {:induction false} BufferBounded(isDiagnostic: string -> bool, chunks: seq<string>, max: nat)
    requires max >= 114
    ensures var logs := Buffered(isDiagnostic, chunks, max);
            |logs| <= max && SameEnd(logs, Flatten(chunks), Min(|Flatten(chunks)|, Surviving(max)))
  {
    if chunks != [] {
      var init, chunk := chunks[..|chunks| - 1], chunks[|chunks| - 1];
      BufferBounded(isDiagnostic, init, max);
      hide Compact, Flatten, Surviving, SameEnd;
      ChunkBounded(isDiagnostic, Buffered(isDiagnostic, init, max), Flatten(init), chunk, max);
      FlattenSnoc(init, chunk);
      SplitLast(chunks);
    }
  }

  // ---- Git output

  class GitOutput<Byte> {
    const maxStdoutBytes: nat
    var stdoutChunks: seq<seq<Byte>>
    var stdoutBytes: nat
    var stdoutTruncated: bool
    ghost var received: seq<seq<Byte>>

    ghost predicate Valid()
      reads this
    {
      && stdoutBytes == |Flatten(stdoutChunks)|
      && Flatten(stdoutChunks) == Kept(Flatten(received), maxStdoutBytes)
      && (stdoutTruncated <==> Overflows(received, maxStdoutBytes))
    }

    constructor (maxStdoutBytes: nat)
      ensures Valid() && received == [] && this.maxStdoutBytes == maxStdoutBytes
    {
      this.maxStdoutBytes := maxStdoutBytes;
      stdoutChunks, stdoutBytes, stdoutTruncated, received := [], 0, false, [];
    }

    method OnData(chunk: seq<Byte>)
      requires Valid()
      modifies this
      ensures Valid() && received == old(received) + [chunk]
    {
      KeptNext(Flatten(received), chunk, maxStdoutBytes);
      FlattenSnoc(received, chunk);
      OverflowsNext(received, chunk, maxStdoutBytes);
      hide Overflows, Flatten;
      var taken: nat := stdoutBytes;
      received := received + [chunk];
      if taken >= maxStdoutBytes {
        stdoutTruncated := true;
        return;
      }
      var remainingBytes := maxStdoutBytes - taken;
      var collectedChunk := if |chunk| > remainingBytes then chunk[..remainingBytes] else chunk;
      FlattenSnoc(stdoutChunks, collectedChunk);
      stdoutChunks := stdoutChunks + [collectedChunk];
      stdoutBytes := stdoutBytes + |collectedChunk|;
      stdoutTruncated := stdoutTruncated || |collectedChunk| < |chunk|;
    }
  }

  /** The first bytes, up to the limit. */
  function Kept<Byte>(total: seq<Byte>, limit: nat): seq<Byte> {
    if |total| <= limit then total else total[..limit]
  }

  /** A chunk does not fit, or arrives when nothing fits any more. */
  ghost predicate Overflows<Byte>(chunks: seq<seq<Byte>>, limit: nat) {
    exists i :: 0 <= i < |chunks| && Overflowing(chunks, i, limit)
  }

  ghost predicate Overflowing<Byte>(chunks: seq<seq<Byte>>, i: nat, limit: nat)
    requires i < |chunks|
  {
    |Flatten(chunks[..i])| >= limit || |Flatten(chunks[..i + 1])| > limit
  }

  lemma KeptNext<Byte>(total: seq<Byte>, chunk: seq<Byte>, limit: nat)
    ensures |total| >= limit ==> Kept(total + chunk, limit) == Kept(total, limit) && |Kept(total, limit)| == limit
    ensures |total| < limit ==>
              Kept(total + chunk, limit) == Kept(total, limit) + Kept(chunk, limit - |total|)
              && Kept(total, limit) == total
  {
    if |total| >= limit {
      assert (total + chunk)[..limit] == total[..limit];
    } else if |total + chunk| > limit {
      assert (total + chunk)[..limit] == total + chunk[..limit - |total|];
    }
  }

  lemma OverflowsNext<Byte>(chunks: seq<seq<Byte>>, chunk: seq<Byte>, limit: nat)
    ensures Overflows(chunks + [chunk], limit) <==>
            Overflows(chunks, limit) || |Flatten(chunks)| >= limit || |Flatten(chunks) + chunk| > limit
  {
    var all := chunks + [chunk];
    FlattenSnoc(chunks, chunk);
    hide Flatten;
    assert all[..|chunks|] == chunks && all[..|chunks| + 1] == all;
    assert Overflowing(all, |chunks|, limit) <==> |Flatten(chunks)| >= limit || |Flatten(chunks) + chunk| > limit;
    forall i | 0 <= i < |chunks|
      ensures Overflowing(all, i, limit) <==> Overflowing(chunks, i, limit)
    {
      assert all[..i] == chunks[..i] && all[..i + 1] == chunks[..i + 1];
    }
    hide Overflowing;
    if Overflows(chunks, limit) {
      var i :| 0 <= i < |chunks| && Overflowing(chunks, i, limit);
      assert Overflowing(all, i, limit);
    }
  }

  lemma FlattenGrows<Byte>(chunks: seq<seq<Byte>>, n: nat)
    requires n <= |chunks|
    ensures |Flatten(chunks[..n])| <= |Flatten(chunks)|
  {
    FlattenSplit(chunks, n);
  }

  /**
   * Truncation is reported when the total exceeds the limit, and otherwise exactly when an empty chunk
   * arrives at the limit.
   */
  lemma TruncationMeans<Byte>(chunks: seq<seq<Byte>>, limit: nat)
    ensures Overflows(chunks, limit) <==>
            || |Flatten(chunks)| > limit
            || exists i :: 0 <= i < |chunks| && chunks[i] == [] && |Flatten(chunks[..i])| == limit
  {
    if Overflows(chunks, limit) {
      var i :| 0 <= i < |chunks| && Overflowing(chunks, i, limit);
      FlattenNext(chunks, i);
      FlattenGrows(chunks, i + 1);
      hide Flatten;
    }
    if |Flatten(chunks)| > limit {
      assert chunks[..|chunks|] == chunks;
      Crosses(chunks, |chunks|, limit);
    }
    forall i | 0 <= i < |chunks| && chunks[i] == [] && |Flatten(chunks[..i])| == limit
      ensures Overflows(chunks, limit)
    {
      assert Overflowing(chunks, i, limit);
    }
  }

  lemma {:induction false} Crosses<Byte>(chunks: seq<seq<Byte>>, n: nat, limit: nat)
    requires n <= |chunks| && |Flatten(chunks[..n])| > limit
    ensures Overflows(chunks, limit)
  {
    if n > 0 {
      assert Overflowing(chunks, n - 1, limit);
    }
  }

  /** For non-empty chunks truncation means that the total exceeds the limit, however the output is split. */
  lemma TruncatedIffTooLong<Byte>(chunks: seq<seq<Byte>>, limit: nat)
    requires forall i :: 0 <= i < |chunks| ==> chunks[i] != []
    ensures Overflows(chunks, limit) <==> |Flatten(chunks)| > limit
  {
    TruncationMeans(chunks, limit);
    hide Overflows;
  }
}
