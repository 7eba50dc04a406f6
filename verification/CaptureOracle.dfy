/**
  The text a capture reports, and the whole-stream oracle that states it on bytes
  (src/process-utils.js, cpp-mcp/src/process.cpp, cpp-mcp/benchmarks/capture.cpp).
 */
module CaptureOracle {
  import opened Common
  import opened CaptureText

  /** The test `(byte & 0xc0) != 0x80` on a value from 0 to 255. */
  predicate Leading(b: int) { !(0x80 <= b < 0xc0) }

  /** A code point is its UTF-8 bytes: a leading byte, then continuation bytes. */
  type CodePoint = seq<int>
  type Text = seq<CodePoint>

  predicate WellFormed(c: CodePoint) {
    c != [] && Leading(c[0]) && forall i :: 0 < i < |c| ==> !Leading(c[i])
  }

  predicate Decoded(text: Text) { forall i :: 0 <= i < |text| ==> WellFormed(text[i]) }

  function Bytes(text: Text): seq<int> {
    if text == [] then [] else text[0] + Bytes(text[1..])
  }

  function Ascii(s: string): Text {
    seq(|s|, i requires 0 <= i < |s| => [s[i] as int])
  }

  function Digits(n: nat): Text {
    if n < 10 then [[48 + n]] else Digits(n / 10) + [[48 + n % 10]]
  }

  function Note(omitted: nat): Text {
    Ascii("\n... middle capture omitted ") + Digits(omitted) + Ascii(" characters ...\n")
  }

  /** What a finished capture reports. */
  datatype Report = Report(text: Text, originalChars: nat, truncated: bool)

  /** The whole-stream meaning of a capture limit. */
  function Captured(stream: Text, limit: Option<nat>): Report {
    var n := |stream|;
    if limit.None? || n <= limit.value then Report(stream, n, false)
    else if limit.value == 0 then Report([], n, true)
    else
      var half := limit.value / 2;
      Report(First(stream, half) + Note(n - limit.value) + Last(stream, limit.value - half), n, true)
  }

  /** The text of a capture (`captureText`). */
  function ReportText(c: Capture<CodePoint>, limit: Option<nat>): Text {
    if !c.truncated then c.head
    else if limit == Some(0) then []
    else
      var omitted := c.originalChars - |c.head| - |c.tail|;
      c.head + Note(if omitted < 0 then 0 else omitted) + c.tail
  }

  /** The capture of a stream reports the whole-stream meaning. */
  lemma KeptReports(stream: Text, limit: Option<nat>)
    ensures var c := Kept(stream, limit);
            Report(ReportText(c, limit), c.originalChars, c.truncated) == Captured(stream, limit)
  {
  }

  function Concat(chunks: seq<Text>): Text {
    if chunks == [] then [] else Concat(chunks[..|chunks| - 1]) + chunks[|chunks| - 1]
  }

  /** Capturing a stream chunk by chunk reports what the whole stream means, however the
      stream was cut and whether the limit is absent, 0, 1 or larger. */
  method CaptureChunks(limit: Option<nat>, chunks: seq<Text>) returns (r: Report)
    ensures r == Captured(Concat(chunks), limit)
  {
    var state := new CaptureState<CodePoint>();
    for i := 0 to |chunks|
      invariant fresh(state)
      invariant state.State() == Kept(Concat(chunks[..i]), limit)
    {
      assert chunks[..i + 1][..i] == chunks[..i];
      state.AppendCapture(limit, chunks[i], Concat(chunks[..i]));
    }
    assert chunks[..|chunks|] == chunks;
    KeptReports(Concat(chunks), limit);
    r := Report(ReportText(state.State(), limit), state.originalChars, state.truncated);
  }

  /** The report of the ring accumulator is the whole-stream meaning of what was pushed. */
  method Snapshot(a: CaptureAccumulator<CodePoint>, ghost stream: Text) returns (r: Report)
    requires Holds(a.State(), a.limit, stream)
    ensures r == Captured(stream, a.limit)
  {
    KeptReports(stream, a.limit);
    if a.truncated && a.limit == Some(0) {
      return Report([], a.count, a.truncated);
    }
    var text := a.head;
    if a.truncated {
      text := text + Note(a.count - |a.head| - |a.tail|);
      ghost var before := text;
      var at := a.next;
      for i := 0 to |a.tail|
        invariant 0 <= at < |a.tail| || a.tail == []
        invariant at == if a.next + i < |a.tail| then a.next + i else a.next + i - |a.tail|
        invariant text == before + Ring(a.tail, a.next)[..i]
      {
        assert Ring(a.tail, a.next)[i] == a.tail[at];
        text := text + [a.tail[at]];
        at := at + 1;
        if at == |a.tail| {
          at := 0;
        }
      }
    }
    r := Report(text, a.count, a.truncated);
  }

  /** The ring accumulator gives the same report for the same stream, however it was cut. */
  method CaptureByRing(limit: Option<nat>, chunks: seq<Text>) returns (r: Report)
    ensures r == Captured(Concat(chunks), limit)
  {
    var ring := new CaptureAccumulator<CodePoint>(limit);
    for i := 0 to |chunks|
      invariant fresh(ring) && ring.limit == limit
      invariant Holds(ring.State(), limit, Concat(chunks[..i]))
    {
      assert chunks[..i + 1][..i] == chunks[..i];
      ring.PushText(chunks[i], Concat(chunks[..i]));
    }
    assert chunks[..|chunks|] == chunks;
    r := Snapshot(ring, Concat(chunks));
  }

  // ---------------------------------------------------------------------------------------
  // The byte oracle

  function LeadCount(bytes: seq<int>): nat {
    if bytes == [] then 0
    else LeadCount(bytes[..|bytes| - 1]) + if Leading(bytes[|bytes| - 1]) then 1 else 0
  }

  lemma {:induction false} LeadCountJoins(a: seq<int>, b: seq<int>)
    ensures LeadCount(a + b) == LeadCount(a) + LeadCount(b)
  {
    if b == [] {
      assert a + b == a;
    } else {
      LeadCountJoins(a, b[..|b| - 1]);
      assert (a + b)[..|a + b| - 1] == a + b[..|b| - 1];
    }
  }

  lemma {:induction false} NoneLeading(bytes: seq<int>)
    requires forall i :: 0 <= i < |bytes| ==> !Leading(bytes[i])
    ensures LeadCount(bytes) == 0
  {
    if bytes != [] {
      NoneLeading(bytes[..|bytes| - 1]);
    }
  }

  lemma OneLeading(c: CodePoint)
    requires WellFormed(c)
    ensures LeadCount(c) == 1
  {
    assert c == c[..1] + c[1..];
    LeadCountJoins(c[..1], c[1..]);
    NoneLeading(c[1..]);
    assert c[..1][..0] == [];
  }

  /** A text has as many leading bytes as code points. */
  lemma {:induction false} LeadCountIsLength(text: Text)
    requires Decoded(text)
    ensures LeadCount(Bytes(text)) == |text|
  {
    if text != [] {
      OneLeading(text[0]);
      LeadCountJoins(text[0], Bytes(text[1..]));
      LeadCountIsLength(text[1..]);
    }
  }

  lemma {:induction false} BytesJoin(a: Text, b: Text)
    ensures Bytes(a + b) == Bytes(a) + Bytes(b)
  {
    if a == [] {
      assert a + b == b;
    } else {
      BytesJoin(a[1..], b);
      var x, y, z := a[0], Bytes(a[1..]), Bytes(b);
      assert (a + b)[1..] == a[1..] + b && (a + b)[0] == x;
      assert x + (y + z) == x + y + z;
    }
  }

  /** Cutting the bytes before a leading byte, or at the end, cuts the text between code points. */
  lemma {:induction false} CutIsPrefix(text: Text, end: nat)
    requires Decoded(text)
    requires end <= |Bytes(text)| && (end == |Bytes(text)| || Leading(Bytes(text)[end]))
    ensures LeadCount(Bytes(text)[..end]) <= |text|
    ensures Bytes(text)[..end] == Bytes(text[..LeadCount(Bytes(text)[..end])])
  {
    var bytes := Bytes(text);
    if end == 0 {
      assert bytes[..end] == [];
    } else {
      var first, rest := text[0], Bytes(text[1..]);
      OneLeading(text[0]);
      assert forall i :: 0 < i < |first| ==> bytes[i] == first[i];
      CutIsPrefix(text[1..], end - |first|);
      var k := LeadCount(rest[..end - |first|]);
      assert bytes[..end] == first + rest[..end - |first|];
      LeadCountJoins(first, rest[..end - |first|]);
      assert text[..k + 1][1..] == text[1..][..k];
    }
  }

  /** The scan for the end of the head: it stops before the (count + 1)-th leading byte. */
  method HeadEnd(bytes: seq<int>, count: nat, ghost text: Text) returns (end: nat)
    requires Decoded(text) && bytes == Bytes(text) && count < |text|
    ensures end <= |bytes| && bytes[..end] == Bytes(text[..count])
  {
    LeadCountIsLength(text);
    assert bytes[..|bytes|] == bytes;
    end := 0;
    var seen := 0;
    while end < |bytes|
      invariant 0 <= end <= |bytes| && seen == LeadCount(bytes[..end]) <= count
    {
      if Leading(bytes[end]) {
        if seen == count {
          break;
        }
        seen := seen + 1;
      }
      assert bytes[..end + 1][..end] == bytes[..end];
      end := end + 1;
    }
    CutIsPrefix(text, end);
  }

  /** The scan for the start of the tail: back over `count` leading bytes. */
  method TailStart(bytes: seq<int>, count: nat, ghost text: Text) returns (start: nat)
    requires Decoded(text) && bytes == Bytes(text) && 0 < count <= |text|
    ensures start <= |bytes| && bytes[start..] == Bytes(Last(text, count))
  {
    LeadCountIsLength(text);
    start := |bytes|;
    var seen := 0;
    assert bytes[..|bytes|] == bytes;
    while start > 0 && seen < count
      invariant 0 <= start <= |bytes| && seen <= count
      invariant seen + LeadCount(bytes[..start]) == |text|
      invariant seen == count ==> start < |bytes| && Leading(bytes[start])
    {
      start := start - 1;
      assert bytes[..start + 1][..start] == bytes[..start];
      if Leading(bytes[start]) {
        seen := seen + 1;
      }
    }
    CutIsPrefix(text, start);
    ghost var k := |text| - count;
    assert text == text[..k] + text[k..];
    BytesJoin(text[..k], text[k..]);
  }

  method CountLeading(bytes: seq<int>) returns (count: nat)
    ensures count == LeadCount(bytes)
  {
    count := 0;
    for i := 0 to |bytes|
      invariant count == LeadCount(bytes[..i])
    {
      assert bytes[..i + 1][..i] == bytes[..i];
      if Leading(bytes[i]) {
        count := count + 1;
      }
    }
    assert bytes[..|bytes|] == bytes;
  }

  lemma BytesOfThree(a: Text, b: Text, c: Text)
    ensures Bytes(a + b + c) == Bytes(a) + Bytes(b) + Bytes(c)
  {
    BytesJoin(a, b);
    BytesJoin(a + b, c);
  }

  /** The oracle of the capture benchmark, on the bytes of a decoded text: its text is the byte
      form of the whole-stream meaning, and its count and flag agree. */
  method Oracle(bytes: seq<int>, limit: Option<nat>, ghost text: Text)
    returns (out: seq<int>, count: nat, truncated: bool)
    requires Decoded(text) && bytes == Bytes(text)
    ensures out == Bytes(Captured(text, limit).text)
    ensures count == Captured(text, limit).originalChars && truncated == Captured(text, limit).truncated
  {
    count := CountLeading(bytes);
    LeadCountIsLength(text);
    if limit.None? || count <= limit.value {
      return bytes, count, false;
    }
    if limit.value == 0 {
      return [], count, count != 0;
    }
    var headCount := limit.value / 2;
    var tailCount := limit.value - headCount;
    var headEnd := HeadEnd(bytes, headCount, text);
    var tailStart := TailStart(bytes, tailCount, text);
    out := bytes[..headEnd] + Bytes(Note(count - limit.value)) + bytes[tailStart..];
    truncated := true;
    BytesOfThree(First(text, headCount), Note(count - limit.value), Last(text, tailCount));
  }
}
