/**
  Bounded capture of process output.  A stream of any length is kept as its first and last
  characters with a note of how many were omitted between them.  Three programs compute this:
  the accumulator of src/process-utils.js, which appends whole chunks, the accumulator of
  cpp-mcp/src/process.cpp, which keeps the tail in a ring, and the whole-stream oracle of
  cpp-mcp/benchmarks/capture.cpp, which scans the bytes of the finished text.

  Characters are whole code points, as the decoders in front of the accumulators deliver them.
 */
module CaptureText {
  import opened Common

  function First<T>(text: seq<T>, n: nat): seq<T> { text[..Min(|text|, n)] }
  function Last<T>(text: seq<T>, n: nat): seq<T> { text[|text| - Min(|text|, n)..] }

  datatype Capture<T> = Capture(head: seq<T>, tail: seq<T>, originalChars: nat, truncated: bool)

  /** The capture that a stream must leave. */
  function Kept<T>(stream: seq<T>, limit: Option<nat>): Capture<T> {
    var n := |stream|;
    if limit.None? || (limit.value > 0 && n <= limit.value) then Capture(stream, [], n, false)
    else if limit.value == 0 then Capture([], [], n, n > 0)
    else
      var half := limit.value / 2;
      Capture(First(stream, half), Last(stream, limit.value - half), n, true)
  }

  // ---------------------------------------------------------------------------------------
  // The chunk accumulator

  class CaptureState<T> {
    var head: seq<T>
    var tail: seq<T>
    var originalChars: nat
    var truncated: bool

    function State(): Capture<T>
      reads this
    {
      Capture(head, tail, originalChars, truncated)
    }

    constructor ()
      ensures forall limit :: State() == Kept<T>([], limit)
    {
      head, tail, originalChars, truncated := [], [], 0, false;
    }

    /** Appending a chunk to the capture of a stream gives the capture of the longer stream,
        whatever the stream, the chunk and the limit. */
    method AppendCapture(limit: Option<nat>, value: seq<T>, ghost stream: seq<T>)
      requires State() == Kept(stream, limit)
      modifies this
      ensures State() == Kept(stream + value, limit)
    {
      Appends(stream, value, limit);
      originalChars := originalChars + |value|;
      if limit.None? {
        head := head + value;
        return;
      }
      if limit.value == 0 {
        truncated := truncated || |value| > 0;
        return;
      }
      if !truncated && originalChars <= limit.value {
        head := head + value;
        return;
      }
      var headLimit := limit.value / 2;
      var tailLimit := limit.value - headLimit;
      if !truncated {
        var combined := head + value;
        head := First(combined, headLimit);
        tail := Last(combined, tailLimit);
        truncated := true;
      } else {
        tail := Last(tail + value, tailLimit);
      }
    }
  }

  /** What a chunk does to the capture of a stream, case by case. */
  lemma Appends<T>(stream: seq<T>, value: seq<T>, limit: Option<nat>)
    ensures var before, after := Kept(stream, limit), Kept(stream + value, limit);
            && after.originalChars == |stream| + |value|
            && (limit.None? || (limit.value > 0 && |stream| + |value| <= limit.value)
                ==> after.head == stream + value && after.tail == [] && !after.truncated
                    && before.head == stream && before.tail == [] && !before.truncated)
            && (limit.Some? && 0 < limit.value < |stream| + |value|
                ==> && after.truncated
                    && if before.truncated
                       then after.head == before.head
                            && after.tail == Last(before.tail + value, limit.value - limit.value / 2)
                       else before.head == stream
                            && after.head == First(stream + value, limit.value / 2)
                            && after.tail == Last(stream + value, limit.value - limit.value / 2))
  {
    if limit.Some? && 0 < limit.value < |stream| {
      HeadSettled(stream, value, limit.value / 2);
      LastAbsorbs(stream, value, limit.value - limit.value / 2);
    }
  }

  lemma HeadSettled<T>(stream: seq<T>, value: seq<T>, n: nat)
    requires n <= |stream|
    ensures First(stream + value, n) == First(stream, n)
  {
  }

  /** The last characters of a stream and a chunk need only the stream's last characters. */
  lemma LastAbsorbs<T>(stream: seq<T>, value: seq<T>, n: nat)
    ensures Last(Last(stream, n) + value, n) == Last(stream + value, n)
  {
  }

  // ---------------------------------------------------------------------------------------
  // The ring accumulator

  /** The characters of a ring from its oldest to its newest. */
  function Ring<T>(tail: seq<T>, next: nat): seq<T>
    requires next <= |tail|
  {
    tail[next..] + tail[..next]
  }

  datatype RingCapture<T> = RingCapture(head: seq<T>, tail: seq<T>, count: nat, next: nat, truncated: bool)

  /** The ring holds the capture of `stream`. */
  ghost predicate Holds<T>(r: RingCapture<T>, limit: Option<nat>, stream: seq<T>) {
    && r.next <= |r.tail|
    && (r.truncated && limit != Some(0) ==> r.next < |r.tail|)
    && Capture(r.head, Ring(r.tail, r.next), r.count, r.truncated) == Kept(stream, limit)
  }

  /** The first overflow: the second half of a full head becomes the ring. */
  function Split<T>(r: RingCapture<T>, headLimit: nat): RingCapture<T>
    requires headLimit <= |r.head|
  {
    r.(head := r.head[..headLimit], tail := r.head[headLimit..], truncated := true)
  }

  function Overwritten<T>(r: RingCapture<T>, scalar: T): RingCapture<T>
    requires r.next < |r.tail|
  {
    r.(tail := r.tail[r.next := scalar], count := r.count + 1, next := if r.next + 1 == |r.tail| then 0 else r.next + 1)
  }

  /** A head that is exactly full holds the same characters after it is split. */
  lemma SplitFull<T>(r: RingCapture<T>, limit: nat, stream: seq<T>)
    requires 0 < limit == |stream| && Holds(r, Some(limit), stream)
    ensures Full(Split(r, limit / 2), limit, stream)
  {
  }

  /** What one more character makes of a capture that is full. */
  lemma KeptOneMore<T>(stream: seq<T>, limit: nat, scalar: T)
    requires 0 < limit <= |stream|
    ensures var half := limit / 2;
            Kept(stream + [scalar], Some(limit))
            == Capture(First(stream, half), Last(Last(stream, limit - half) + [scalar], limit - half),
                       |stream| + 1, true)
  {
    HeadSettled(stream, [scalar], limit / 2);
    LastAbsorbs(stream, [scalar], limit - limit / 2);
  }

  /** A full capture: the ring holds the last characters and its head the first ones. */
  ghost predicate Full<T>(r: RingCapture<T>, limit: nat, stream: seq<T>) {
    && 0 < limit <= |stream| && r.next < |r.tail| && r.count == |stream| && r.truncated
    && r.head == First(stream, limit / 2) && Ring(r.tail, r.next) == Last(stream, limit - limit / 2)
  }

  /** Overwriting the oldest character of a full capture captures one character more. */
  lemma OverwrittenHolds<T>(r: RingCapture<T>, limit: nat, stream: seq<T>, scalar: T)
    requires Full(r, limit, stream)
    ensures Holds(Overwritten(r, scalar), Some(limit), stream + [scalar])
  {
    KeptOneMore(stream, limit, scalar);
    RingPush(r.tail, r.next, scalar);
    assert |r.tail| == limit - limit / 2;
  }

  /** While there is room the head takes the character. */
  lemma HeadTakes<T>(r: RingCapture<T>, limit: Option<nat>, stream: seq<T>, scalar: T)
    requires Holds(r, limit, stream) && limit != Some(0)
    requires limit.None? || (!r.truncated && r.count + 1 <= limit.value)
    ensures Holds(r.(head := r.head + [scalar], count := r.count + 1), limit, stream + [scalar])
  {
  }

  lemma TruncatedIsFull<T>(r: RingCapture<T>, limit: nat, stream: seq<T>)
    requires limit > 0 && Holds(r, Some(limit), stream) && r.truncated
    ensures Full(r, limit, stream)
  {
  }

  class CaptureAccumulator<T> {
    const limit: Option<nat>
    var head: seq<T>
    var tail: seq<T>
    var count: nat
    var next: nat
    var truncated: bool

    function State(): RingCapture<T>
      reads this
    {
      RingCapture(head, tail, count, next, truncated)
    }

    constructor (limit: Option<nat>)
      ensures this.limit == limit && Holds(State(), limit, [])
    {
      this.limit := limit;
      head, tail, count, next, truncated := [], [], 0, 0, false;
    }

    /** One character of `push_text`. */
    method PushOne(scalar: T, ghost stream: seq<T>)
      requires Holds(State(), limit, stream) && limit != Some(0)
      modifies this
      ensures Holds(State(), limit, stream + [scalar])
    {
      if limit.None? || (!truncated && count + 1 <= limit.value) {
        HeadTakes(State(), limit, stream, scalar);
        count := count + 1;
        head := head + [scalar];
        return;
      }
      if !truncated {
        SplitFull(State(), limit.value, stream);
        var headLimit := limit.value / 2;
        tail := head[headLimit..];
        head := head[..headLimit];
        truncated := true;
      } else {
        TruncatedIsFull(State(), limit.value, stream);
      }
      OverwrittenHolds(State(), limit.value, stream, scalar);
      tail := tail[next := scalar];
      count := count + 1;
      next := next + 1;
      if next == |tail| {
        next := 0;
      }
    }

    /** Pushing a text to the ring of a stream gives the ring of the longer stream. */
    method PushText(text: seq<T>, ghost stream: seq<T>)
      requires Holds(State(), limit, stream)
      modifies this
      ensures Holds(State(), limit, stream + text)
    {
      if limit == Some(0) {
        count := count + |text|;
        truncated := count != 0;
        return;
      }
      assert stream + text[..0] == stream;
      for at := 0 to |text|
        invariant Holds(State(), limit, stream + text[..at])
      {
        PushOne(text[at], stream + text[..at]);
        assert stream + text[..at + 1] == stream + text[..at] + [text[at]];
      }
      assert stream + text[..|text|] == stream + text;
    }
  }

  /** Overwriting the oldest character and advancing drops it and adds the new one. */
  lemma RingPush<T>(tail: seq<T>, next: nat, scalar: T)
    requires next < |tail|
    ensures var after := if next + 1 == |tail| then 0 else next + 1;
            Ring(tail[next := scalar], after) == Last(Ring(tail, next) + [scalar], |tail|)
  {
  }
}
