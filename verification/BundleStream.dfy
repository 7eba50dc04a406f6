/**
  The decompression loop of the offline bundle (cpp-bootstrap/src/bundle.cpp).  The
  decompressor itself is any function that meets the interface of zlib's `inflate`: from a
  state and the available input it consumes some input, produces at most one output buffer,
  and reports a status.
 */
module BundleStream {
  import opened Common

  const CHUNK := 65536

  datatype Status = Running | StreamEnd | Broken

  /** What one call of the decompressor answers. */
  datatype Response<S, B> = Response(state: S, consumed: nat, output: seq<B>, status: Status)

  datatype Error = TruncatedStream | TruncatedPayload | CorruptStream | ExpansionLimit | StreamSizeMismatch

  /** What was written to the output file, and what follows in the input file on success. */
  datatype Expansion<B> = Done(output: seq<B>, rest: seq<B>) | Failed(error: Error, output: seq<B>)

  /** The interface: no more input is consumed than given, no more output than one buffer. */
  ghost predicate Interface<S(!new), B(!new)>(inflate: (S, seq<B>) -> Response<S, B>) {
    forall s, input :: inflate(s, input).consumed <= |input| && |inflate(s, input).output| <= CHUNK
  }

  /** A call that makes no progress, or that reports an error. */
  predicate Stalled<S, B>(r: Response<S, B>) {
    r.status == Broken || (r.status == Running && |r.output| == 0 && r.consumed == 0)
  }

  /** The loop as a function.  It ends because every turn that goes on consumes input or writes
      output, and both are bounded: the measure is the input left plus the output unwritten. */
  function ExpandLoop<S(!new), B(!new)>(inflate: (S, seq<B>) -> Response<S, B>, s: S, available: seq<B>,
                                        input: seq<B>, remaining: nat, expected: nat, output: seq<B>): Expansion<B>
    requires Interface(inflate) && |output| <= expected
    decreases remaining + |available| + expected - |output|
  {
    if available == [] && remaining == 0 then Failed(TruncatedStream, output)
    else
      var count := if available == [] then Min(remaining, CHUNK) else 0;
      if count > |input| then Failed(TruncatedPayload, output)
      else
        var given := available + input[..count];
        var r := inflate(s, given);
        if Stalled(r) then Failed(CorruptStream, output)
        else if |r.output| > expected - |output| then Failed(ExpansionLimit, output)
        else if r.status == StreamEnd then
          if remaining - count > 0 || r.consumed < |given| || |output| + |r.output| != expected
          then Failed(StreamSizeMismatch, output + r.output)
          else Done(output + r.output, input[count..])
        else
          ExpandLoop(inflate, r.state, given[r.consumed..], input[count..], remaining - count, expected,
                     output + r.output)
  }

  /** The loop as the source runs it. */
  method ExpandFile<S(!new), B(!new)>(inflate: (S, seq<B>) -> Response<S, B>, start: S, file: seq<B>,
                                      compressed: nat, expected: nat) returns (r: Expansion<B>)
    requires Interface(inflate)
    ensures r == ExpandLoop(inflate, start, [], file, compressed, expected, [])
  {
    var s, available: seq<B>, input, remaining: nat, output: seq<B> := start, [], file, compressed, [];
    var status := Running;
    ghost var whole := ExpandLoop(inflate, start, [], file, compressed, expected, []);
    while status != StreamEnd
      invariant |output| <= expected
      invariant status == Running ==> ExpandLoop(inflate, s, available, input, remaining, expected, output) == whole
      invariant status == StreamEnd ==>
        whole == if remaining > 0 || |available| > 0 || |output| != expected
                 then Failed(StreamSizeMismatch, output) else Done(output, input)
      invariant status != Broken
      decreases if status == Running then 1 + remaining + |available| + expected - |output| else 0
    {
      if |available| == 0 {
        if remaining == 0 {
          return Failed(TruncatedStream, output);
        }
        var count := Min(remaining, CHUNK);
        if count > |input| {
          return Failed(TruncatedPayload, output);
        }
        remaining := remaining - count;
        available, input := available + input[..count], input[count..];
      } else {
        assert available + input[..0] == available && input[0..] == input;
      }
      var answer := inflate(s, available);
      status := answer.status;
      if (status != Running && status != StreamEnd)
         || (status == Running && |answer.output| == 0 && answer.consumed == 0) {
        return Failed(CorruptStream, output);
      }
      if |answer.output| > expected - |output| {
        return Failed(ExpansionLimit, output);
      }
      s, available, output := answer.state, available[answer.consumed..], output + answer.output;
    }
    if remaining > 0 || |available| > 0 || |output| != expected {
      return Failed(StreamSizeMismatch, output);
    }
    r := Done(output, input);
  }

  /** Whatever the decompressor answers: no more than the declared bytes are written, even on
      failure; success means that exactly the compressed bytes were used and exactly the
      declared bytes written. */
  lemma {:induction false} ExpandBounds<S(!new), B(!new)>(
      inflate: (S, seq<B>) -> Response<S, B>, s: S, available: seq<B>, input: seq<B>, remaining: nat,
      expected: nat, output: seq<B>)
    requires Interface(inflate) && |output| <= expected
    ensures var r := ExpandLoop(inflate, s, available, input, remaining, expected, output);
            && output <= r.output
            && |r.output| <= expected
            && (r.Done? ==> |r.output| == expected && remaining <= |input| && r.rest == input[remaining..])
    decreases remaining + |available| + expected - |output|
  {
    var count := if available == [] then Min(remaining, CHUNK) else 0;
    if !(available == [] && remaining == 0) && count <= |input| {
      var given := available + input[..count];
      var r := inflate(s, given);
      if !Stalled(r) && |r.output| <= expected - |output| && r.status == Running {
        ExpandBounds(inflate, r.state, given[r.consumed..], input[count..], remaining - count, expected,
                     output + r.output);
      }
    }
  }

  /** A decompressor that inverts a compressor.  `decodes(s, z, d)` says that from state s the
      compressed bytes z stand for the data d.  Fed any non-empty part of z, it uses some of it
      or produces some of d, never both wrong; it ends exactly when z is used up.  No data is
      left by then because the checksum that closes a stream follows all of its data
      (section 2.2 of RFC 1950). */
  ghost predicate Inverts<S(!new), B(!new)>(inflate: (S, seq<B>) -> Response<S, B>,
                                            decodes: (S, seq<B>, seq<B>) -> bool) {
    forall s, z, d, given ::
      decodes(s, z, d) && given != [] && given <= z ==> Answers(inflate(s, given), decodes, z, d, given)
  }

  ghost predicate Answers<S(!new), B(!new)>(r: Response<S, B>, decodes: (S, seq<B>, seq<B>) -> bool,
                                            z: seq<B>, d: seq<B>, given: seq<B>) {
    && r.consumed <= |given| && given <= z
    && r.output <= d
    && !Stalled(r)
    && decodes(r.state, z[r.consumed..], d[|r.output|..])
    && (r.status == StreamEnd <==> r.consumed == |z|)
    && (r.consumed == |z| ==> |r.output| == |d|)
  }

  /** Taking `count` more input bytes and using `consumed` of what is then available splits the
      rest of the stream as the loop does. */
  lemma InputSplits<B>(available: seq<B>, input: seq<B>, remaining: nat, count: nat, consumed: nat)
    requires count <= remaining <= |input| && consumed <= |available| + count
    ensures var z, given := available + input[..remaining], available + input[..count];
            && given <= z
            && z[consumed..] == given[consumed..] + input[count..][..remaining - count]
            && input[count..][remaining - count..] == input[remaining..]
            && (consumed == |z| ==> count == remaining && consumed == |given|)
  {
  }

  lemma OutputSplits<B>(output: seq<B>, part: seq<B>, data: seq<B>)
    requires part <= data
    ensures output + part + data[|part|..] == output + data
    ensures |part| == |data| ==> part == data
  {
  }

  /** One turn of the loop that neither fails nor stalls. */
  lemma Turn<S(!new), B(!new)>(inflate: (S, seq<B>) -> Response<S, B>, s: S, available: seq<B>, input: seq<B>,
                               remaining: nat, count: nat, expected: nat, output: seq<B>, r: Response<S, B>)
    requires Interface(inflate) && (available != [] || remaining > 0)
    requires count == (if available == [] then Min(remaining, CHUNK) else 0) <= |input|
    requires r == inflate(s, available + input[..count]) && !Stalled(r)
    requires |output| + |r.output| <= expected
    ensures var whole := ExpandLoop(inflate, s, available, input, remaining, expected, output);
            var given := available + input[..count];
            if r.status == Running
            then whole == ExpandLoop(inflate, r.state, given[r.consumed..], input[count..], remaining - count,
                                     expected, output + r.output)
            else count == remaining && r.consumed == |given| && |output| + |r.output| == expected
                 ==> whole == Done(output + r.output, input[count..])
  {
  }

  /** However the input is cut into buffers and however much the decompressor takes each time,
      a whole compressed stream expands to its data and leaves the input after it. */
  lemma {:induction false} ExpandInverts<S(!new), B(!new)>(
      inflate: (S, seq<B>) -> Response<S, B>, decodes: (S, seq<B>, seq<B>) -> bool,
      s: S, available: seq<B>, input: seq<B>, remaining: nat, output: seq<B>, data: seq<B>)
    requires Interface(inflate) && Inverts(inflate, decodes)
    requires Pending(decodes, s, available, input, remaining, data)
    ensures Expands(inflate, s, available, input, remaining, output, data)
    decreases remaining + |available| + |data|
  {
    var count := if available == [] then Min(remaining, CHUNK) else 0;
    var r := inflate(s, available + input[..count]);
    FirstAnswer(inflate, decodes, s, available, input, remaining, count, data);
    if r.status == Running {
      var rest, after, more := (available + input[..count])[r.consumed..], input[count..], data[|r.output|..];
      RunningLeavesRest(decodes, r, available, input, remaining, count, data);
      ExpandInverts(inflate, decodes, r.state, rest, after, remaining - count, output + r.output, more);
      RunningExpands(inflate, s, r, available, input, remaining, count, output, data);
    } else {
      LastTurn(inflate, decodes, s, available, input, remaining, count, output, data);
    }
  }

  /** The loop writes the data after what was written and leaves the input after the stream. */
  ghost predicate Expands<S(!new), B(!new)>(inflate: (S, seq<B>) -> Response<S, B>, s: S, available: seq<B>,
                                            input: seq<B>, remaining: nat, output: seq<B>, data: seq<B>)
    requires Interface(inflate) && remaining <= |input|
  {
    ExpandLoop(inflate, s, available, input, remaining, |output| + |data|, output)
    == Done(output + data, input[remaining..])
  }

  /** From state s what is available and the rest of the input stand for the data. */
  ghost predicate Pending<S(!new), B(!new)>(decodes: (S, seq<B>, seq<B>) -> bool, s: S, available: seq<B>,
                                            input: seq<B>, remaining: nat, data: seq<B>) {
    && remaining <= |input| && (available != [] || remaining > 0)
    && decodes(s, available + input[..remaining], data)
  }

  /** A decompressor that inverts a compressor answers the first call of a turn as it must. */
  lemma FirstAnswer<S(!new), B(!new)>(
      inflate: (S, seq<B>) -> Response<S, B>, decodes: (S, seq<B>, seq<B>) -> bool,
      s: S, available: seq<B>, input: seq<B>, remaining: nat, count: nat, data: seq<B>)
    requires Inverts(inflate, decodes) && Pending(decodes, s, available, input, remaining, data)
    requires count == if available == [] then Min(remaining, CHUNK) else 0
    ensures Answers(inflate(s, available + input[..count]), decodes, available + input[..remaining], data,
                    available + input[..count])
  {
    InputSplits(available, input, remaining, count, 0);
  }

  /** A good answer that ends the stream delivers all of the data. */
  lemma LastTurn<S(!new), B(!new)>(
      inflate: (S, seq<B>) -> Response<S, B>, decodes: (S, seq<B>, seq<B>) -> bool,
      s: S, available: seq<B>, input: seq<B>, remaining: nat, count: nat, output: seq<B>, data: seq<B>)
    requires Interface(inflate) && Pending(decodes, s, available, input, remaining, data)
    requires count == if available == [] then Min(remaining, CHUNK) else 0
    requires var r := inflate(s, available + input[..count]);
             r.status != Running
             && Answers(r, decodes, available + input[..remaining], data, available + input[..count])
    ensures Expands(inflate, s, available, input, remaining, output, data)
  {
    var r := inflate(s, available + input[..count]);
    InputSplits(available, input, remaining, count, r.consumed);
    OutputSplits(output, r.output, data);
    Turn(inflate, s, available, input, remaining, count, |output| + |data|, output, r);
  }

  /** A good answer that goes on leaves the rest of the stream, and less to do. */
  lemma RunningLeavesRest<S(!new), B(!new)>(
      decodes: (S, seq<B>, seq<B>) -> bool, r: Response<S, B>, available: seq<B>, input: seq<B>,
      remaining: nat, count: nat, data: seq<B>)
    requires remaining <= |input| && (available != [] || remaining > 0)
    requires count == if available == [] then Min(remaining, CHUNK) else 0
    requires r.status == Running
    requires Answers(r, decodes, available + input[..remaining], data, available + input[..count])
    ensures var rest := (available + input[..count])[r.consumed..];
            && Pending(decodes, r.state, rest, input[count..], remaining - count, data[|r.output|..])
            && remaining - count + |rest| + |data[|r.output|..]| < remaining + |available| + |data|
            && input[count..][remaining - count..] == input[remaining..]
  {
    InputSplits(available, input, remaining, count, r.consumed);
  }

  /** The loop goes on with what a good answer leaves. */
  lemma RunningGoesOn<S(!new), B(!new)>(
      inflate: (S, seq<B>) -> Response<S, B>, s: S, r: Response<S, B>, available: seq<B>, input: seq<B>,
      remaining: nat, count: nat, output: seq<B>, data: seq<B>)
    requires Interface(inflate) && (available != [] || remaining > 0)
    requires count == (if available == [] then Min(remaining, CHUNK) else 0) <= |input|
    requires r == inflate(s, available + input[..count])
    requires r.status == Running && !Stalled(r) && r.output <= data
    ensures ExpandLoop(inflate, s, available, input, remaining, |output| + |data|, output)
            == ExpandLoop(inflate, r.state, (available + input[..count])[r.consumed..], input[count..],
                          remaining - count, |output + r.output| + |data[|r.output|..]|, output + r.output)
  {
    assert |output + r.output| + |data[|r.output|..]| == |output| + |data|;
    Turn(inflate, s, available, input, remaining, count, |output| + |data|, output, r);
  }

  /** So a stream expands if the rest after a good answer does. */
  lemma RunningExpands<S(!new), B(!new)>(
      inflate: (S, seq<B>) -> Response<S, B>, s: S, r: Response<S, B>, available: seq<B>, input: seq<B>,
      remaining: nat, count: nat, output: seq<B>, data: seq<B>)
    requires Interface(inflate) && remaining <= |input| && (available != [] || remaining > 0)
    requires count == if available == [] then Min(remaining, CHUNK) else 0
    requires r == inflate(s, available + input[..count])
    requires r.status == Running && !Stalled(r) && r.output <= data
    requires Expands(inflate, r.state, (available + input[..count])[r.consumed..], input[count..],
                     remaining - count, output + r.output, data[|r.output|..])
    ensures Expands(inflate, s, available, input, remaining, output, data)
  {
    RunningGoesOn(inflate, s, r, available, input, remaining, count, output, data);
    OutputSplits(output, r.output, data);
    assert input[count..][remaining - count..] == input[remaining..];
  }

  // ---------------------------------------------------------------------------------------
  // The contract can be met

  /** A decompressor for stored data followed by one closing byte; its state is the number of
      data bytes still to come, or -1 after the end. */
  function Stored<B>(left: int, given: seq<B>): Response<int, B> {
    if given == [] || left < 0 then Response(left, 0, [], Broken)
    else if left == 0 then Response(-1, 1, [], StreamEnd)
    else
      var k := Min(Min(left, |given|), CHUNK);
      Response(left - k, k, given[..k], Running)
  }

  predicate StoredAs<B(==)>(left: int, z: seq<B>, d: seq<B>) {
    if left < 0 then z == [] && d == [] else |d| == left && |z| == left + 1 && d <= z
  }

  lemma StoredAnswers<B(!new)>(left: int, z: seq<B>, d: seq<B>, given: seq<B>)
    requires StoredAs(left, z, d) && given != [] && given <= z
    ensures Answers(Stored(left, given), StoredAs, z, d, given)
  {
    var r := Stored(left, given);
    var k := r.consumed;
    assert d == z[..left] && given == z[..|given|];
    if left > 0 {
      assert given[..k] == d[..k];
      assert z[k..][..left - k] == d[k..];
    }
  }

  lemma StoredInverts<B(!new)>()
    ensures Interface<int, B>(Stored) && Inverts<int, B>(Stored, StoredAs)
  {
    forall left, z: seq<B>, d, given | StoredAs(left, z, d) && given != [] && given <= z
      ensures Answers(Stored(left, given), StoredAs, z, d, given)
    {
      StoredAnswers(left, z, d, given);
    }
  }
}
