/**
 * src/utils/utils.go: the chunked file reconstruction and the in-memory
 * byte-buffer edit driven by the console menu. The destination file is
 * modelled by the sequence of characters written to it; console output by
 * the lines the display loops produce.
 */
module Utils {
  import opened Wrappers

  /** A Go `byte`. */
  type byte = b: int | 0 <= b < 256

  // ---------------------------------------------------------------------
  // Chunked file reconstruction
  // ---------------------------------------------------------------------

  /** `strings.Repeat` of a single character. */
  function Repeat(c: char, n: nat): (r: string)
    ensures |r| == n
    ensures forall i :: 0 <= i < n ==> r[i] == c
  {
    seq(n, _ => c)
  }

  function Sum(s: seq<nat>): nat
  {
    if s == [] then 0 else s[0] + Sum(s[1..])
  }

  /**
   * The lengths of the writes the reconstruction loop makes while
   * `remaining` bytes are still missing: a full chunk while at least a
   * chunk is missing, then the shorter remainder.
   */
  function ChunkPlan(chunkSize: int, remaining: int): (plan: seq<nat>)
    requires chunkSize > 0 || remaining <= 0
    ensures |plan| == 0 <==> remaining <= 0
    decreases remaining
  {
    if remaining <= 0 then []
    else if remaining < chunkSize then [remaining]
    else [chunkSize] + ChunkPlan(chunkSize, remaining - chunkSize)
  }

  /**
   * The writes add up to exactly what was missing (nothing when nothing
   * was); every write is between 1 and `chunkSize` bytes, and only the
   * last may be shorter than a chunk.
   */
  lemma {:induction false} ChunkPlanShape(chunkSize: int, remaining: int)
    requires chunkSize > 0 || remaining <= 0
    ensures var plan := ChunkPlan(chunkSize, remaining);
            && Sum(plan) == (if remaining > 0 then remaining else 0)
            && (forall k :: 0 <= k < |plan| ==> 0 < plan[k] <= chunkSize)
            && (forall k :: 0 <= k < |plan| - 1 ==> plan[k] == chunkSize)
    decreases remaining
  {
    if remaining >= chunkSize && remaining > 0 {
      ChunkPlanShape(chunkSize, remaining - chunkSize);
      var rest := ChunkPlan(chunkSize, remaining - chunkSize);
      assert ChunkPlan(chunkSize, remaining) == [chunkSize] + rest;
      assert ([chunkSize] + rest)[1..] == rest;
    }
  }

  /**
   * The number of writes is the total divided by the chunk size, rounded
   * up: one write fewer would not cover the total, and the writes made do.
   */
  lemma {:induction false} ChunkPlanCount(chunkSize: int, remaining: int)
    requires chunkSize > 0 && remaining > 0
    ensures (|ChunkPlan(chunkSize, remaining)| - 1) * chunkSize < remaining
    ensures remaining <= |ChunkPlan(chunkSize, remaining)| * chunkSize
    decreases remaining
  {
    if remaining > chunkSize {
      var k := |ChunkPlan(chunkSize, remaining - chunkSize)|;
      ChunkPlanCount(chunkSize, remaining - chunkSize);
      assert |ChunkPlan(chunkSize, remaining)| == k + 1;
      assert (k + 1) * chunkSize == k * chunkSize + chunkSize;
    }
  }

  /**
   * One step of the plan: after the writes already made, the first write
   * of what is left is a full chunk or the whole remainder.
   */
  lemma ChunkPlanStep(done: seq<nat>, chunkSize: int, remaining: int)
    requires chunkSize > 0 && remaining > 0
    ensures var w := if remaining < chunkSize then remaining else chunkSize;
            done + ChunkPlan(chunkSize, remaining) == (done + [w]) + ChunkPlan(chunkSize, remaining - w)
  {
    var w := if remaining < chunkSize then remaining else chunkSize;
    assert ChunkPlan(chunkSize, remaining) == [w] + ChunkPlan(chunkSize, remaining - w);
  }

  /** Two runs of the same character make one run. */
  lemma RepeatAppend(c: char, m: nat, n: nat)
    ensures Repeat(c, m) + Repeat(c, n) == Repeat(c, m + n)
  {
  }

  /**
   * The divisor of the progress test, `int(float64(totalSize)*0.05)`. The
   * float product is modelled by integer division by 20. The binary value
   * of 0.05 lies just above 1/20, so the two agree for every total below
   * 2^52; in particular the divisor is 0 exactly for totals from 1 to 19.
   */
  function ProgressStep(totalSize: int): (step: int)
    ensures 0 < totalSize < 20 ==> step == 0
    ensures totalSize >= 20 ==> step >= 1
  {
    if totalSize >= 0 then totalSize / 20 else -((-totalSize) / 20)
  }

  /** A byte count is reported when it is a multiple of the step, or the total. */
  predicate Reported(receivedSize: int, totalSize: int)
    requires totalSize >= 20
  {
    receivedSize % ProgressStep(totalSize) == 0 || receivedSize == totalSize
  }

  /**
   * A well-formed progress log whose counts are all at most `upTo`: each
   * count is positive, reported by the test above, and larger than the one
   * before it.
   */
  predicate ProgressLog(progress: seq<nat>, upTo: int, totalSize: int)
    requires totalSize >= 20
    decreases |progress|
  {
    progress == [] ||
    var last := progress[|progress| - 1];
    && 0 < last <= upTo
    && Reported(last, totalSize)
    && ProgressLog(progress[..|progress| - 1], last - 1, totalSize)
  }

  /** Spelled out: the counts are positive, bounded, reported and strictly increasing. */
  lemma {:induction false} ProgressLogSpec(progress: seq<nat>, upTo: int, totalSize: int)
    requires totalSize >= 20 && ProgressLog(progress, upTo, totalSize)
    ensures forall k :: 0 <= k < |progress| ==> 0 < progress[k] <= upTo && Reported(progress[k], totalSize)
    ensures forall j, k :: 0 <= j < k < |progress| ==> progress[j] < progress[k]
    decreases |progress|
  {
    if progress != [] {
      var init := progress[..|progress| - 1];
      ProgressLogSpec(init, progress[|progress| - 1] - 1, totalSize);
    }
  }

  /**
   * What one iteration writes: the pre-generated chunk, or a shorter run of
   * 'A' when less than a chunk is missing.
   */
  method NextWrite(chunk: string, remaining: int) returns (toWrite: string)
    requires chunk == Repeat('A', |chunk|) && remaining > 0
    ensures toWrite == Repeat('A', if remaining < |chunk| then remaining else |chunk|)
  {
    toWrite := chunk;
    if remaining < |chunk| {
      toWrite := Repeat('A', remaining);
    }
  }

  /**
   * The progress test after a write: a line is printed at every multiple
   * of the step, and always once the last byte is written.
   */
  method ReportProgress(progress: seq<nat>, before: nat, receivedSize: nat, totalSize: int) returns (progress': seq<nat>)
    requires totalSize >= 20 && before < receivedSize
    requires ProgressLog(progress, before, totalSize)
    ensures ProgressLog(progress', receivedSize, totalSize)
    ensures Reported(receivedSize, totalSize) ==> progress' == progress + [receivedSize]
    ensures !Reported(receivedSize, totalSize) ==> progress' == progress
  {
    progress' := progress;
    if receivedSize % ProgressStep(totalSize) == 0 || receivedSize == totalSize {
      progress' := progress' + [receivedSize];
      assert progress'[..|progress|] == progress;
    }
  }

  /**
   * What the reconstruction loop keeps true after `receivedSize` bytes:
   * the file holds that many 'A's, the writes made so far followed by
   * the plan for the rest give the whole plan, and the progress lines
   * form a log up to `receivedSize` whose last entry is the total once
   * everything is written.
   */
  predicate Streamed(chunkSize: int, totalSize: int, receivedSize: nat, file: string, writes: seq<nat>, progress: seq<nat>)
    requires chunkSize > 0 || totalSize <= 0
  {
    && receivedSize <= (if totalSize > 0 then totalSize else 0)
    && file == Repeat('A', receivedSize)
    && writes + ChunkPlan(chunkSize, totalSize - receivedSize) == ChunkPlan(chunkSize, totalSize)
    && (receivedSize == 0 ==> progress == [])
    && (receivedSize > 0 && receivedSize == totalSize ==> |progress| > 0 && progress[|progress| - 1] == totalSize)
    && (totalSize >= 20 ==> ProgressLog(progress, receivedSize, totalSize))
  }

  /**
   * One pass of the reconstruction loop: writes the next chunk, or the
   * shorter remainder, counts it as received and reports progress. The
   * loop's invariant holds again afterwards, with more bytes received.
   */
  method ReceiveChunk(chunk: string, chunkSize: int, totalSize: int, receivedSize: nat, file: string, writes: seq<nat>, progress: seq<nat>)
    returns (receivedSize': nat, file': string, writes': seq<nat>, progress': seq<nat>)
    requires chunkSize > 0 && totalSize >= 20 && chunk == Repeat('A', chunkSize)
    requires receivedSize < totalSize
    requires Streamed(chunkSize, totalSize, receivedSize, file, writes, progress)
    ensures receivedSize < receivedSize'
    ensures Streamed(chunkSize, totalSize, receivedSize', file', writes', progress')
  {
    var remaining := totalSize - receivedSize;
    var toWrite := NextWrite(chunk, remaining);
    ChunkPlanStep(writes, chunkSize, remaining);
    RepeatAppend('A', receivedSize, |toWrite|);
    file' := file + toWrite;
    writes' := writes + [|toWrite|];
    receivedSize' := receivedSize + |toWrite|;
    progress' := ReportProgress(progress, receivedSize, receivedSize', totalSize);
  }

  /**
   * `SimulateFileStreaming`: writes `totalSize` bytes of 'A' to the file,
   * chunk by chunk, and reports progress. `file` is what reaches the file,
   * `writes` the length of each write, `progress` the byte counts reported.
   * The callers' obligations are those without which Go fails:
   * `strings.Repeat` panics on a negative chunk size, a zero chunk size
   * never advances, and a total from 1 to 19 makes the progress test
   * divide by zero.
   */
  method SimulateFileStreaming(chunkSize: int, totalSize: int)
    returns (file: string, writes: seq<nat>, progress: seq<nat>)
    requires chunkSize >= 0
    requires chunkSize == 0 ==> totalSize <= 0
    requires totalSize <= 0 || totalSize >= 20
    ensures file == Repeat('A', if totalSize > 0 then totalSize else 0)
    ensures writes == ChunkPlan(chunkSize, totalSize)
    ensures totalSize > 0 ==> |progress| > 0 && progress[|progress| - 1] == totalSize
    ensures totalSize >= 20 ==> ProgressLog(progress, totalSize, totalSize)
    ensures totalSize <= 0 ==> writes == [] && progress == []
  {
    var chunk := Repeat('A', chunkSize);
    var receivedSize: nat := 0;
    file, writes, progress := [], [], [];
    while receivedSize < totalSize
      invariant Streamed(chunkSize, totalSize, receivedSize, file, writes, progress)
      decreases totalSize - receivedSize
    {
      receivedSize, file, writes, progress := ReceiveChunk(chunk, chunkSize, totalSize, receivedSize, file, writes, progress);
    }
  }

  // ---------------------------------------------------------------------
  // In-place buffer edit
  // ---------------------------------------------------------------------

  /** The bytes of an ASCII string (its UTF-8 encoding). */
  function AsciiBytes(s: string): (r: seq<byte>)
    requires forall i :: 0 <= i < |s| ==> s[i] as int < 128
    ensures |r| == |s|
    ensures forall i :: 0 <= i < |s| ==> r[i] == s[i] as int
  {
    seq(|s|, i requires 0 <= i < |s| => s[i] as int)
  }

  /** The bytes loaded when nothing is loaded yet. */
  const Seed: seq<byte> := [0x42, 0x61, 0x73, 0x63, 0x6F, 0x6D, 0x48, 0x75, 0x6E, 0x74, 0x65, 0x72]

  /** The seed is the text "BascomHunter". */
  lemma SeedIsBascomHunter()
    ensures Seed == AsciiBytes("BascomHunter")
  {
  }

  /** The fixed position and value of the edit. */
  const EditIndex: nat := 6
  const EditByte: byte := 'Z' as int

  /**
   * The buffer contents after `LoadAndModifyString`: the current contents,
   * or the seed when nothing is loaded, with the byte at index 6 set to
   * 'Z' and every other byte and the length unchanged. Go panics on a
   * shorter buffer, hence the requirement.
   */
  function LoadAndModify(current: Option<seq<byte>>): (r: seq<byte>)
    requires current.Some? ==> EditIndex < |current.value|
    ensures var before := current.GetOr(Seed);
            |r| == |before| && r[EditIndex] == EditByte &&
            forall i :: 0 <= i < |r| && i != EditIndex ==> r[i] == before[i]
  {
    current.GetOr(Seed)[EditIndex := EditByte]
  }

  /** A first load shows "BascomZunter". */
  lemma FreshLoadIsBascomZunter()
    ensures LoadAndModify(None) == AsciiBytes("BascomZunter")
  {
  }

  /** Editing again leaves the contents as they are. */
  lemma LoadAndModifyIdempotent(current: Option<seq<byte>>)
    requires current.Some? ==> EditIndex < |current.value|
    ensures LoadAndModify(Some(LoadAndModify(current))) == LoadAndModify(current)
  {
  }

  function HexDigit(d: nat): (c: char)
    requires d < 16
  {
    if d < 10 then ('0' as int + d) as char else ('A' as int + d - 10) as char
  }

  /** `%02X`: two upper-case hexadecimal digits. */
  function Hex2(b: byte): (s: string)
    ensures |s| == 2
  {
    [HexDigit(b / 16), HexDigit(b % 16)]
  }

  /** The value of an upper-case hexadecimal digit, the inverse of HexDigit. */
  function HexValue(c: char): (d: Option<nat>)
    ensures d.Some? ==> d.value < 16 && HexDigit(d.value) == c
  {
    if '0' <= c <= '9' then Some(c as int - '0' as int)
    else if 'A' <= c <= 'F' then Some(c as int - 'A' as int + 10)
    else None
  }

  /** Reading two hexadecimal digits back gives the byte that was shown. */
  lemma Hex2RoundTrip(b: byte)
    ensures HexValue(Hex2(b)[0]).Some? && HexValue(Hex2(b)[1]).Some?
    ensures HexValue(Hex2(b)[0]).value * 16 + HexValue(Hex2(b)[1]).value == b
  {
  }

  /** The text of a hex display line: `%02X ` for each byte, in order. */
  function HexLine(bs: seq<byte>): (s: string)
    ensures |s| == 3 * |bs|
  {
    if bs == [] then "" else HexLine(bs[..|bs| - 1]) + Hex2(bs[|bs| - 1]) + " "
  }

  /** Byte i of the buffer occupies characters 3i to 3i+2 of the display. */
  lemma {:induction false} HexLineAt(bs: seq<byte>, i: nat)
    requires i < |bs|
    ensures HexLine(bs)[3 * i..3 * i + 3] == Hex2(bs[i]) + " "
  {
    var init := bs[..|bs| - 1];
    if i < |bs| - 1 {
      HexLineAt(init, i);
      assert HexLine(bs)[3 * i..3 * i + 3] == HexLine(init)[3 * i..3 * i + 3];
    } else {
      assert HexLine(bs)[3 * i..] == Hex2(bs[i]) + " ";
    }
  }

  /** The display loop: reads every byte of the buffer and changes nothing. */
  method HexDump(a: array<byte>) returns (line: string)
    ensures line == HexLine(a[..])
  {
    line := "";
    for i := 0 to a.Length
      invariant line == HexLine(a[..i])
    {
      assert a[..i + 1][..i] == a[..i];
      line := line + Hex2(a[i]) + " ";
    }
    assert a[..a.Length] == a[..];
  }

  /**
   * `LoadAndModifyString`: allocates the seed when given no buffer and
   * otherwise reuses the given one (the same array comes back), shows it
   * in hex, writes 'Z' at index 6 in place and shows it again.
   */
  method LoadAndModifyString(current: array?<byte>) returns (r: array<byte>, shownBefore: string, shownAfter: string)
    requires current != null ==> EditIndex < current.Length
    modifies current
    ensures current != null ==> r == current
    ensures current == null ==> fresh(r)
    ensures r[..] == LoadAndModify(if current == null then None else Some(old(current[..])))
    ensures shownBefore == HexLine(if current == null then Seed else old(current[..]))
    ensures shownAfter == HexLine(r[..])
  {
    if current == null {
      var seed := Seed;
      r := new byte[|seed|](i requires 0 <= i < |seed| => seed[i]);
      assert r[..] == seed;
    } else {
      r := current;
    }
    shownBefore := HexDump(r);
    r[EditIndex] := EditByte;
    shownAfter := HexDump(r);
  }
}
