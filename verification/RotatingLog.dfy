/**
  Bounded job logs (src/job-logs.js) and their tail reader (src/async-jobs.js).  A sink
  appends to a current file and, when that is full, shifts it into a numbered series of at
  most `rotations` older files.  File 0 is the current file and file i is "<path>.i".
  Text is taken as single bytes; a write that does not fail is complete.  Where a file
  operation fails is an input.
 */
module RotatingLog {
  import opened Common

  /** One byte of single-byte text. */
  type Byte = char
  type Bytes = seq<Byte>
  type Files = map<nat, Bytes>

  /** A missing file reads as empty. */
  function Content(files: Files, i: nat): Bytes { if i in files then files[i] else [] }

  /** The contents of files 0 to n. */
  function Contents(files: Files, n: nat): (r: seq<Bytes>)
    ensures |r| == n + 1
  {
    seq(n + 1, i requires 0 <= i => Content(files, i))
  }

  /** The contents joined oldest first. */
  function Joined(parts: seq<Bytes>): Bytes {
    if parts == [] then [] else Joined(parts[1..]) + parts[0]
  }

  /** Renaming from the top: files above `index` have moved and `index + 1` is vacant. */
  ghost function Renamed(files: Files, count: nat, index: nat, i: nat): Bytes {
    if i == index + 1 then [] else if index + 1 < i <= count then Content(files, i - 1) else Content(files, i)
  }

  /** One rename, from `index` to the vacant place above it. */
  ghost function Moved(files: Files, index: nat, i: nat): Bytes {
    if i == index + 1 then Content(files, index) else if i == index then [] else Content(files, i)
  }

  ghost predicate IsSuffix(a: Bytes, b: Bytes) { |a| <= |b| && b[|b| - |a|..] == a }

  /** Every file has moved one place up, the oldest is lost, file 0 is gone, and files past the
      rotation count are not touched. */
  ghost predicate FullyRotated(files: Files, result: Files, count: nat) {
    && Contents(result, count) == [[]] + Contents(files, count)[..count]
    && 0 !in result
    && forall i: nat :: i > count ==> Content(result, i) == Content(files, i)
  }

  /** At most the oldest file is lost, and what remains is in order. */
  ghost predicate OnlyOldestLost(files: Files, result: Files, count: nat) {
    && IsSuffix(Joined(Contents(result, count)), Joined(Contents(files, count)))
    && forall i: nat :: i > count ==> Content(result, i) == Content(files, i)
  }

  /** The rotation as the source performs it: remove the oldest, then rename from the top.  If
      operation number `fault` fails, the rest is not done and only the oldest file can be lost.
      `left` is what remains of the count towards the fault. */
  method RotateFiles(files: Files, rotations: int, fault: Option<nat>)
    returns (result: Files, failed: bool, left: Option<nat>)
    ensures failed ==> fault.Some?
    ensures fault.None? ==> left.None?
    ensures var count := Max(0, rotations);
            if failed then OnlyOldestLost(files, result, count) else FullyRotated(files, result, count)
  {
    var count := Max(0, rotations);
    result, failed, left := files, false, fault;
    if left == Some(0) {
      NothingLost(files, count);
      return files, true, left;
    }
    left := Sooner(left);
    if count <= 0 {
      result := files - {0};
      return;
    }
    result := files - {count};
    var index := count - 1;
    while index >= 1
      invariant 0 <= index < count && !failed
      invariant fault.None? ==> left.None?
      invariant index + 1 !in result
      invariant forall i: nat :: Content(result, i) == Renamed(files, count, index, i)
      decreases index
    {
      ghost var before := result;
      if index in result {
        if left == Some(0) {
          InterruptedKeepsRest(files, result, count, index);
          return result, true, left;
        }
        left := Sooner(left);
        result := (result - {index})[index + 1 := result[index]];
      }
      assert forall i: nat :: Content(result, i) == Moved(before, index, i);
      index := index - 1;
    }
    ghost var before := result;
    if 0 in result {
      if left == Some(0) {
        InterruptedKeepsRest(files, result, count, 0);
        return result, true, left;
      }
      left := Sooner(left);
      result := (result - {0})[1 := result[0]];
    }
    assert forall i: nat :: Content(result, i) == Moved(before, 0, i);
  }

  /** One operation nearer to the fault. */
  function Sooner(fault: Option<nat>): Option<nat> {
    if fault.Some? && fault.value > 0 then Some(fault.value - 1) else fault
  }

  lemma NothingLost(files: Files, count: nat)
    ensures OnlyOldestLost(files, files, count)
  {
  }

  lemma {:induction false} JoinedOfTwo(a: seq<Bytes>, b: seq<Bytes>)
    ensures Joined(a + b) == Joined(b) + Joined(a)
  {
    if a == [] {
      assert a + b == b && Joined(b) + [] == Joined(b);
    } else {
      JoinedOfTwo(a[1..], b);
      assert (a + b)[1..] == a[1..] + b && (a + b)[0] == a[0];
      assert Joined(b) + Joined(a[1..]) + a[0] == Joined(b) + (Joined(a[1..]) + a[0]);
    }
  }

  lemma JoinedAroundGap(a: seq<Bytes>, b: seq<Bytes>)
    ensures Joined(a + [[]] + b) == Joined(a + b)
  {
    var gap: seq<Bytes> := [[]];
    JoinedOfTwo(a + gap, b);
    JoinedOfTwo(a, gap);
    JoinedOfTwo(a, b);
    assert gap[1..] == [];
    assert Joined(gap) == [];
    assert [] + Joined(a) == Joined(a);
  }

  /** Interrupted between two renames, everything but the oldest file is still there, in order. */
  lemma InterruptedKeepsRest(files: Files, result: Files, count: nat, index: nat)
    requires index < count
    requires forall i: nat :: Content(result, i) == Renamed(files, count, index, i)
    ensures OnlyOldestLost(files, result, count)
  {
    var parts := Contents(files, count);
    var a, b := parts[..index + 1], parts[index + 1..count];
    GapParts(files, result, count, index);
    GapIsSuffix(a, b, parts[count]);
    assert a + b + [parts[count]] == parts;
  }

  lemma GapParts(files: Files, result: Files, count: nat, index: nat)
    requires index < count
    requires forall i: nat :: Content(result, i) == Renamed(files, count, index, i)
    ensures var parts := Contents(files, count);
            Contents(result, count) == parts[..index + 1] + [[]] + parts[index + 1..count]
  {
    var parts, now := Contents(files, count), Contents(result, count);
    var split := parts[..index + 1] + [[]] + parts[index + 1..count];
    assert |split| == |now|;
    forall i | 0 <= i <= count ensures now[i] == split[i] {
      assert now[i] == Content(result, i) == Renamed(files, count, index, i);
      if i <= index {
        assert split[i] == parts[i];
      } else if i > index + 1 {
        assert split[i] == parts[i - 1];
      }
    }
  }

  lemma GapIsSuffix(a: seq<Bytes>, b: seq<Bytes>, oldest: Bytes)
    ensures IsSuffix(Joined(a + [[]] + b), Joined(a + b + [oldest]))
  {
    JoinedAroundGap(a, b);
    JoinedOfTwo(a + b, [oldest]);
    SuffixOfJoin(Joined([oldest]), Joined(a + b));
  }

  lemma SuffixOfJoin(a: Bytes, b: Bytes)
    ensures IsSuffix(b, a + b)
  {
  }

  // ---------------------------------------------------------------------------------------
  // The sink

  /** The contents of files 0 to `rotations`, and how often the sink has rotated them. */
  datatype Log = Log(parts: seq<Bytes>, rotated: nat)

  ghost predicate Open(log: Log) { log.parts != [] }

  function Rotated(log: Log): Log
    requires Open(log)
  {
    Log([[]] + log.parts[..|log.parts| - 1], log.rotated + 1)
  }

  /** The log ready to take at least one more byte. */
  function Ready(log: Log, limit: nat): Log
    requires Open(log)
  {
    if |log.parts[0]| >= limit then Rotated(log) else log
  }

  function Append(log: Log, slice: Bytes): Log
    requires Open(log)
  {
    log.(parts := log.parts[0 := log.parts[0] + slice])
  }

  /** How much of the buffer the next write takes. */
  function Portion(log: Log, limit: nat, buffer: Bytes): nat
    requires Open(log)
  {
    Min(Max(1, limit - |log.parts[0]|), |buffer|)
  }

  /** One turn of the write loop. */
  function Turn(log: Log, limit: nat, buffer: Bytes): (r: Log)
    requires Open(log)
    ensures |r.parts| == |log.parts|
  {
    var ready := Ready(log, limit);
    Append(ready, buffer[..Portion(ready, limit, buffer)])
  }

  function Written(log: Log, limit: nat, buffer: Bytes): (r: Log)
    requires Open(log)
    ensures |r.parts| == |log.parts|
    decreases |buffer|
  {
    if buffer == [] then log
    else Written(Turn(log, limit, buffer), limit, buffer[Portion(Ready(log, limit), limit, buffer)..])
  }

  /** Where a write fails: at its n-th turn, in file operation `op` of that turn's rotation, of
      which the first closes the current file, or in the write itself if there are fewer. */
  datatype Fault = NoFault | Fault(turn: nat, op: nat)

  class RotatingFileSink {
    var files: Files
    const limit: nat
    const rotations: nat
    var currentBytes: nat
    var totalBytes: nat
    var rotationsPerformed: nat
    var closed: bool
    var failure: bool
    var descriptor: bool

    ghost predicate Valid()
      reads this
    {
      && limit >= 4096
      && (failure ==> closed)
      && (descriptor ==> !closed && 0 in files && currentBytes == |files[0]|)
    }

    /** A failed close has lost the file descriptor, but the sink does not count as closed. */
    predicate Stranded()
      reads this
    {
      !closed && !descriptor
    }

    function State(): (r: Log)
      reads this
      ensures |r.parts| == rotations + 1
    {
      Log(Contents(files, rotations), rotationsPerformed)
    }

    /** Opens for append: an existing current file is kept, a missing one is created. */
    constructor (existing: Files, maxBytes: int, rotations: int)
      ensures Valid() && State() == Log(Contents(existing, Max(0, rotations)), 0)
      ensures limit == Max(4096, if maxBytes == 0 then 32 * 1024 * 1024 else maxBytes)
      ensures this.rotations == Max(0, rotations)
      ensures totalBytes == 0 && !closed && !failure && descriptor
    {
      files := existing[0 := Content(existing, 0)];
      limit := Max(4096, if maxBytes == 0 then 32 * 1024 * 1024 else maxBytes);
      this.rotations := Max(0, rotations);
      currentBytes, totalBytes, rotationsPerformed := |Content(existing, 0)|, 0, 0;
      closed, failure, descriptor := false, false, true;
    }

    /** The rotation and a new empty current file.  A failure of the close strands the sink; a later
        one closes it for good.  Either way at most the oldest file is lost. */
    method Rotate(fault: Option<nat>) returns (raised: bool)
      requires Valid() && descriptor
      modifies this`files, this`currentBytes, this`rotationsPerformed, this`closed, this`failure, this`descriptor
      ensures Valid() && closed == failure && descriptor == !raised
      ensures fault == Some(0) ==> raised
      ensures raised ==> fault.Some? && closed == (fault != Some(0))
      ensures !raised ==> State() == Rotated(old(State()))
      ensures raised ==> IsSuffix(Joined(State().parts), Joined(old(State()).parts))
      ensures forall i: nat :: i > rotations ==> Content(files, i) == old(Content(files, i))
    {
      descriptor := false;
      if fault == Some(0) {
        return true;
      }
      var moved, failed, left := RotateFiles(files, rotations, Sooner(fault));
      if failed || left == Some(0) {
        if !failed {
          RotationLosesOldest(files, moved, rotations);
        }
        files := moved;
        closed, failure := true, true;
        return true;
      }
      files := moved[0 := []];
      currentBytes := 0;
      rotationsPerformed := rotationsPerformed + 1;
      descriptor := true;
      assert Contents(files, rotations) == Contents(moved, rotations);
      return false;
    }

    method AppendSlice(slice: Bytes)
      requires Valid() && descriptor
      modifies this`files, this`currentBytes
      ensures Valid() && State() == Append(old(State()), slice)
      ensures forall i: nat :: i > rotations ==> Content(files, i) == old(Content(files, i))
    {
      files := files[0 := files[0] + slice];
      currentBytes := currentBytes + |slice|;
      assert Contents(files, rotations) == Append(old(State()), slice).parts;
    }

    /** One turn of the write loop: rotate if the current file is full, then write what fits.
        A failure takes the descriptor and leaves a suffix of what the files held. */
    method WriteTurn(buffer: Bytes, fails: bool, op: nat) returns (raised: bool, written: nat)
      requires Valid() && descriptor && buffer != []
      modifies this`files, this`currentBytes, this`rotationsPerformed, this`closed, this`failure, this`descriptor
      ensures Valid() && closed == failure && raised == fails && descriptor == !raised
      ensures raised ==> closed == !(|old(State()).parts[0]| >= limit && op == 0)
      ensures !raised ==> State() == Turn(old(State()), limit, buffer)
      ensures !raised ==> written == Portion(Ready(old(State()), limit), limit, buffer)
      ensures raised ==> IsSuffix(Joined(State().parts), Joined(old(State()).parts))
      ensures forall i: nat :: i > rotations ==> Content(files, i) == old(Content(files, i))
    {
      written := 0;
      if currentBytes >= limit {
        raised := Rotate(if fails then Some(op) else None);
        if raised {
          return;
        }
      }
      assert State() == Ready(old(State()), limit);
      if fails {
        ReadyIsSuffix(old(State()), limit);
        closed, failure, descriptor := true, true, false;
        return true, 0;
      }
      var available := Max(1, limit - currentBytes);
      var slice := buffer[..Min(available, |buffer|)];
      AppendSlice(slice);
      return false, |slice|;
    }

    /** A write to an open sink is `Written`, and a write to a closed one does nothing.  A failure
        is raised and leaves a suffix of what the files held followed by the part of the value that
        was written.  From then on nothing is written: after a failure that closed the sink every
        write raises it again, and on a stranded sink every write raises but that of an empty text. */
    method Write(value: Bytes, fault: Fault) returns (raised: bool, ghost written: nat)
      requires Valid()
      modifies this`files, this`currentBytes, this`rotationsPerformed, this`totalBytes,
               this`closed, this`failure, this`descriptor
      ensures Valid() && written <= |value|
      ensures !old(descriptor) ==>
                && State() == old(State()) && totalBytes == old(totalBytes) && !descriptor
                && closed == old(closed) && failure == old(failure)
                && raised == (old(failure) || (old(Stranded()) && value != []))
      ensures old(descriptor) ==> descriptor == !raised && totalBytes == old(totalBytes) + |value|
      ensures old(descriptor) && !raised ==> State() == Written(old(State()), limit, value)
      ensures old(descriptor) && raised ==> fault.Fault? && (failure || Stranded())
      ensures IsSuffix(Joined(State().parts), Joined(old(State()).parts) + value[..written])
      ensures forall i: nat :: i > rotations ==> Content(files, i) == old(Content(files, i))
    {
      SuffixOfSelf(Joined(State().parts), value);
      if failure {
        return true, 0;
      }
      if closed || |value| == 0 {
        return false, 0;
      }
      if !descriptor {
        return true, 0;
      }
      totalBytes := totalBytes + |value|;
      raised, written := WriteLoop(value, fault);
    }

    /** The loop of a write to an open sink. */
    method WriteLoop(value: Bytes, fault: Fault) returns (raised: bool, ghost written: nat)
      requires Valid() && descriptor
      modifies this`files, this`currentBytes, this`rotationsPerformed, this`closed, this`failure, this`descriptor
      ensures Valid() && closed == failure && descriptor == !raised && written <= |value|
      ensures raised ==> fault.Fault?
      ensures !raised ==> State() == Written(old(State()), limit, value)
      ensures IsSuffix(Joined(State().parts), Joined(old(State()).parts) + value[..written])
      ensures forall i: nat :: i > rotations ==> Content(files, i) == old(Content(files, i))
    {
      var done, turn := 0, 0;
      ghost var start, held := State(), Joined(State().parts);
      SuffixOfSelf(held, value);
      while done < |value|
        invariant done <= |value| && Valid() && descriptor
        invariant Written(State(), limit, value[done..]) == Written(start, limit, value)
        invariant IsSuffix(Joined(State().parts), held + value[..done])
        invariant forall i: nat :: i > rotations ==> Content(files, i) == old(Content(files, i))
      {
        ghost var before := State();
        var fails := fault.Fault? && fault.turn == turn;
        var count;
        raised, count := WriteTurn(value[done..], fails, if fails then fault.op else 0);
        if raised {
          SuffixTransitive(Joined(State().parts), Joined(before.parts), held + value[..done]);
          written := done;
          return;
        }
        TurnIsSuffix(before, limit, held + value[..done], value[done..]);
        SliceGrows(held, value, done, count);
        done := done + count;
        turn := turn + 1;
      }
      assert value[done..] == [];
      return false, |value|;
    }

    /** Closing leaves the files; a failing close is raised, and the sink is closed all the same. */
    method End(closeFails: bool) returns (raised: bool)
      requires Valid()
      modifies this`closed, this`descriptor
      ensures Valid() && closed && !descriptor && State() == old(State())
      ensures raised == (closeFails && old(descriptor))
    {
      raised := false;
      if closed && !descriptor {
        return;
      }
      closed := true;
      if descriptor {
        descriptor := false;
        raised := closeFails;
      }
    }
  }

  lemma RotationLosesOldest(files: Files, moved: Files, count: nat)
    requires FullyRotated(files, moved, count)
    ensures OnlyOldestLost(files, moved, count)
  {
    RotatedIsSuffix(Log(Contents(files, count), 0));
  }

  lemma ReadyIsSuffix(log: Log, limit: nat)
    requires Open(log)
    ensures IsSuffix(Joined(Ready(log, limit).parts), Joined(log.parts))
  {
    RotatedIsSuffix(log);
  }

  lemma SuffixOfSelf(held: Bytes, value: Bytes)
    ensures IsSuffix(held, held + value[..0])
    ensures value[0..] == value
  {
    assert held + value[..0] == held;
  }

  /** One turn of the loop keeps the files a suffix of what they held and what was written. */
  lemma TurnIsSuffix(log: Log, limit: nat, all: Bytes, rest: Bytes)
    requires Open(log) && IsSuffix(Joined(log.parts), all)
    ensures IsSuffix(Joined(Turn(log, limit, rest).parts), all + rest[..Portion(Ready(log, limit), limit, rest)])
  {
    var ready := Ready(log, limit);
    var slice := rest[..Portion(ready, limit, rest)];
    ReadyIsSuffix(log, limit);
    SuffixTransitive(Joined(ready.parts), Joined(log.parts), all);
    AppendJoined(ready, slice);
    SuffixAppend(Joined(ready.parts), all, slice);
  }

  lemma SliceGrows(held: Bytes, value: Bytes, done: nat, k: nat)
    requires done + k <= |value|
    ensures held + value[..done] + value[done..][..k] == held + value[..done + k]
    ensures value[done..][k..] == value[done + k..]
  {
  }

  // ---------------------------------------------------------------------------------------
  // Chunking does not matter

  lemma TurnsJoin(log: Log, limit: nat, buffer: Bytes, more: Bytes)
    requires Open(log) && buffer != [] && limit > 0
    requires Portion(Ready(log, limit), limit, buffer + more) > |buffer|
    ensures var next := Turn(log, limit, buffer);
            && Turn(log, limit, buffer + more) == Turn(next, limit, more)
            && Portion(Ready(log, limit), limit, buffer + more)
               == |buffer| + Portion(Ready(next, limit), limit, more)
  {
    var ready, m := Ready(log, limit), Portion(Ready(log, limit), limit, buffer + more);
    assert (buffer + more)[..m] == buffer + more[..m - |buffer|];
    assert ready.parts[0] + (buffer + more[..m - |buffer|]) == ready.parts[0] + buffer + more[..m - |buffer|];
    assert buffer[..|buffer|] == buffer;
  }

  /** Writing two buffers in turn leaves the same log as writing them joined. */
  lemma {:induction false} WriteJoins(log: Log, limit: nat, buffer: Bytes, more: Bytes)
    requires Open(log) && limit > 0
    ensures Written(log, limit, buffer + more) == Written(Written(log, limit, buffer), limit, more)
    decreases |buffer|
  {
    if buffer == [] {
      assert buffer + more == more;
    } else {
      var ready := Ready(log, limit);
      var k, m := Portion(ready, limit, buffer), Portion(ready, limit, buffer + more);
      if m == k {
        assert (buffer + more)[..k] == buffer[..k];
        assert (buffer + more)[k..] == buffer[k..] + more;
        WriteJoins(Turn(log, limit, buffer), limit, buffer[k..], more);
      } else {
        TurnsJoin(log, limit, buffer, more);
        assert (buffer + more)[m..] == more[m - k..];
        assert Written(log, limit, buffer) == Turn(log, limit, buffer);
      }
    }
  }

  function WriteAll(log: Log, limit: nat, chunks: seq<Bytes>): (r: Log)
    requires Open(log)
    ensures |r.parts| == |log.parts|
  {
    if chunks == [] then log
    else Written(WriteAll(log, limit, chunks[..|chunks| - 1]), limit, chunks[|chunks| - 1])
  }

  function Concat(chunks: seq<Bytes>): Bytes {
    if chunks == [] then [] else Concat(chunks[..|chunks| - 1]) + chunks[|chunks| - 1]
  }

  /** However a stream is cut into writes, the log ends as after one write of it all. */
  lemma {:induction false} ChunkingIrrelevant(log: Log, limit: nat, chunks: seq<Bytes>)
    requires Open(log) && limit > 0
    ensures WriteAll(log, limit, chunks) == Written(log, limit, Concat(chunks))
  {
    if chunks != [] {
      ChunkingIrrelevant(log, limit, chunks[..|chunks| - 1]);
      WriteJoins(log, limit, Concat(chunks[..|chunks| - 1]), chunks[|chunks| - 1]);
    }
  }

  /** One byte at a time: the form the remaining proofs follow. */
  lemma ByteStep(log: Log, limit: nat, buffer: Bytes)
    requires Open(log) && limit > 0 && buffer != []
    ensures var n := |buffer| - 1;
            Written(log, limit, buffer)
            == Append(Ready(Written(log, limit, buffer[..n]), limit), [buffer[n]])
  {
    var n := |buffer| - 1;
    var before, last := Written(log, limit, buffer[..n]), [buffer[n]];
    assert buffer == buffer[..n] + last;
    WriteJoins(log, limit, buffer[..n], last);
    OneByte(before, limit, last);
  }

  lemma OneByte(log: Log, limit: nat, one: Bytes)
    requires Open(log) && |one| == 1
    ensures Written(log, limit, one) == Append(Ready(log, limit), one)
  {
    assert one[..1] == one;
    assert Written(Turn(log, limit, one), limit, []) == Turn(log, limit, one);
  }

  // ---------------------------------------------------------------------------------------
  // What survives

  lemma SuffixAppend(a: Bytes, b: Bytes, c: Bytes)
    requires IsSuffix(a, b)
    ensures IsSuffix(a + c, b + c)
  {
    assert (b + c)[|b| - |a|..] == b[|b| - |a|..] + c;
  }

  lemma SuffixTransitive(a: Bytes, b: Bytes, c: Bytes)
    requires IsSuffix(a, b) && IsSuffix(b, c)
    ensures IsSuffix(a, c)
  {
  }

  lemma {:induction false} JoinedOldest(parts: seq<Bytes>)
    requires parts != []
    ensures var n := |parts| - 1; Joined(parts) == parts[n] + Joined(parts[..n])
  {
    var n := |parts| - 1;
    if n > 0 {
      JoinedOldest(parts[1..]);
      assert parts[1..][..n - 1] == parts[..n][1..];
      assert parts[n] + Joined(parts[..n][1..]) + parts[0] == parts[n] + (Joined(parts[..n][1..]) + parts[0]);
    } else {
      assert parts[0] + [] == [] + parts[0];
    }
  }

  /** A rotation only drops the oldest bytes. */
  lemma RotatedIsSuffix(log: Log)
    requires Open(log)
    ensures IsSuffix(Joined(Rotated(log).parts), Joined(log.parts))
  {
    var rest := log.parts[..|log.parts| - 1];
    JoinedOldest(log.parts);
    assert ([[]] + rest)[1..] == rest;
    assert Joined(rest) + [] == Joined(rest);
  }

  lemma AppendJoined(log: Log, slice: Bytes)
    requires Open(log)
    ensures Joined(Append(log, slice).parts) == Joined(log.parts) + slice
  {
    var parts := log.parts;
    assert parts[0 := parts[0] + slice][1..] == parts[1..];
    assert Joined(parts[1..]) + (parts[0] + slice) == Joined(parts[1..]) + parts[0] + slice;
  }

  lemma SuffixStep(log: Log, limit: nat, all: Bytes, b: Byte)
    requires Open(log) && IsSuffix(Joined(log.parts), all)
    ensures IsSuffix(Joined(Append(Ready(log, limit), [b]).parts), all + [b])
  {
    var ready := Ready(log, limit);
    RotatedIsSuffix(log);
    SuffixTransitive(Joined(ready.parts), Joined(log.parts), all);
    AppendJoined(ready, [b]);
    SuffixAppend(Joined(ready.parts), all, [b]);
  }

  /** Whatever the files held before, after any write the files joined oldest first are a
      suffix of what they held followed by what was written. */
  lemma {:induction false} FilesAreSuffix(log: Log, limit: nat, buffer: Bytes)
    requires Open(log) && limit > 0
    ensures IsSuffix(Joined(Written(log, limit, buffer).parts), Joined(log.parts) + buffer)
    decreases |buffer|
  {
    if buffer == [] {
      assert Joined(log.parts) + [] == Joined(log.parts);
    } else {
      var n := |buffer| - 1;
      var before := Joined(log.parts) + buffer[..n];
      FilesAreSuffix(log, limit, buffer[..n]);
      SuffixStep(Written(log, limit, buffer[..n]), limit, before, buffer[n]);
      LastByteApart(Joined(log.parts), buffer);
      ByteStep(log, limit, buffer);
    }
  }

  lemma LastByteApart(a: Bytes, b: Bytes)
    requires b != []
    ensures a + b == a + b[..|b| - 1] + [b[|b| - 1]]
  {
  }

  /** File `i` is within the limit, or it is an older file that the rotations since moved up. */
  ghost predicate WithinOrOld(before: Log, after: Log, limit: nat, i: nat) {
    var shift := after.rotated - before.rotated;
    && i < |after.parts| == |before.parts|
    && (|after.parts[i]| <= limit || (0 <= shift <= i && after.parts[i] == before.parts[i - shift]))
  }

  /** No segment the sink writes exceeds the limit, whatever it found on opening: after any write
      every file is within the limit, or is one of the files found, moved up by the rotations
      since and not written to. */
  lemma {:induction false} NoFilePastLimit(log: Log, limit: nat, buffer: Bytes)
    requires Open(log) && limit > 0
    ensures var w := Written(log, limit, buffer);
            && log.rotated <= w.rotated
            && forall i: nat :: i < |w.parts| ==> WithinOrOld(log, w, limit, i)
    decreases |buffer|
  {
    if buffer != [] {
      var n := |buffer| - 1;
      NoFilePastLimit(log, limit, buffer[..n]);
      ByteStep(log, limit, buffer);
      SegmentStep(log, Written(log, limit, buffer[..n]), limit, buffer[n]);
    }
  }

  lemma SegmentStep(log: Log, mid: Log, limit: nat, b: Byte)
    requires Open(log) && Open(mid) && limit > 0 && log.rotated <= mid.rotated && |mid.parts| == |log.parts|
    requires forall i: nat :: i < |mid.parts| ==> WithinOrOld(log, mid, limit, i)
    ensures var w := Append(Ready(mid, limit), [b]);
            && mid.rotated <= w.rotated
            && forall i: nat :: i < |w.parts| ==> WithinOrOld(log, w, limit, i)
  {
    var w := Append(Ready(mid, limit), [b]);
    forall i: nat | i < |w.parts| ensures WithinOrOld(log, w, limit, i) {
      assert WithinOrOld(log, mid, limit, if w.rotated == mid.rotated || i == 0 then i else i - 1);
    }
  }

  /** The file sizes of a log that started empty, after `n` bytes: `rotated` rotations filled
      the older files, as far as they are kept, to the limit and the rest is in file 0. */
  ghost predicate Layout(log: Log, limit: nat, n: nat) {
    && Open(log)
    && |log.parts[0]| + log.rotated * limit == n
    && |log.parts[0]| <= limit
    && forall i :: 1 <= i < |log.parts| ==> |log.parts[i]| == if i <= log.rotated then limit else 0
  }

  lemma LayoutStep(log: Log, limit: nat, n: nat, b: Byte)
    requires Layout(log, limit, n) && limit > 0
    ensures Layout(Append(Ready(log, limit), [b]), limit, n + 1)
  {
    if |log.parts[0]| >= limit {
      assert (log.rotated + 1) * limit == log.rotated * limit + limit;
    }
  }

  lemma {:induction false} LayoutKept(log: Log, limit: nat, buffer: Bytes)
    requires Layout(log, limit, 0) && limit > 0
    ensures Layout(Written(log, limit, buffer), limit, |buffer|)
    decreases |buffer|
  {
    if buffer != [] {
      var n := |buffer| - 1;
      LayoutKept(log, limit, buffer[..n]);
      ByteStep(log, limit, buffer);
      LayoutStep(Written(log, limit, buffer[..n]), limit, n, buffer[n]);
    }
  }

  /** A newly opened sink with no earlier files has the empty layout. */
  lemma {:induction false} EmptyStart(rotations: nat, limit: nat)
    ensures Layout(Log(Contents(map[], rotations), 0), limit, 0)
    ensures Joined(Contents(map[], rotations)) == []
  {
    if rotations > 0 {
      EmptyStart(rotations - 1, limit);
      assert Contents(map[], rotations)[1..] == Contents(map[], rotations - 1);
    } else {
      assert Contents(map[], 0) == [[]];
    }
  }

  lemma {:induction false} JoinedLength(parts: seq<Bytes>, limit: nat, rotated: nat)
    requires parts != []
    requires forall i :: 1 <= i < |parts| ==> |parts[i]| == if i <= rotated then limit else 0
    ensures |Joined(parts)| == |parts[0]| + Min(|parts| - 1, rotated) * limit
  {
    var n := |parts| - 1;
    JoinedOldest(parts);
    if n > 0 {
      JoinedLength(parts[..n], limit, rotated);
      assert n <= rotated ==> n * limit == (n - 1) * limit + limit;
    }
  }

  /** From an empty start the files hold a suffix of everything written that is at least as
      long as min(total, rotations * limit), and all of it while no more rotations happened
      than files are kept. */
  lemma RetainsEnough(rotations: nat, limit: nat, written: Bytes)
    requires limit > 0
    ensures var log := Written(Log(Contents(map[], rotations), 0), limit, written);
            && IsSuffix(Joined(log.parts), written)
            && |Joined(log.parts)| >= Min(|written|, rotations * limit)
            && (log.rotated <= rotations ==> Joined(log.parts) == written)
  {
    var start := Log(Contents(map[], rotations), 0);
    var log := Written(start, limit, written);
    EmptyStart(rotations, limit);
    LayoutKept(start, limit, written);
    FilesAreSuffix(start, limit, written);
    assert [] + written == written;
    JoinedLength(log.parts, limit, log.rotated);
  }

  // ---------------------------------------------------------------------------------------
  // The tail reader

  function Last(text: Bytes, m: nat): Bytes { text[|text| - Min(|text|, m)..] }

  /** `text.slice(-m)`: a zero keeps everything and a negative `m` drops from the front. */
  function SliceFromEnd(text: Bytes, m: int): Bytes {
    if m > 0 then Last(text, m) else text[Min(|text|, -m)..]
  }

  /** The tail of one file, read from its last bytes.  A limit of zero does not limit and a
      negative one drops characters from the front of the last 4096. */
  method ReadTail(content: Bytes, maxChars: int) returns (r: Bytes)
    ensures r == if maxChars >= 1 then Last(content, maxChars) else SliceFromEnd(Last(content, 4096), maxChars)
  {
    var bytes := Max(4096, Min(|content|, Max(1, maxChars) * 4));
    var text := content[Max(0, |content| - bytes)..];
    r := if |text| > maxChars then SliceFromEnd(text, maxChars) else text;
  }

  lemma LastOfJoin(a: Bytes, b: Bytes, m: nat)
    ensures Last(a + b, m) == if m <= |b| then Last(b, m) else Last(a, m - |b|) + b
  {
  }

  /** What reading the joined files under a limit must give. */
  function Tail(all: Bytes, maxChars: int): Bytes {
    if maxChars >= 0 then Last(all, Max(1, maxChars)) else []
  }

  /** What is gathered from the `count` newest files when `wanted` characters are wanted. */
  ghost function Gathered(parts: seq<Bytes>, count: nat, wanted: nat): (r: Bytes)
    requires count <= |parts|
    ensures |r| <= wanted
  {
    if count == 0 then []
    else
      var newer := Gathered(parts, count - 1, wanted);
      Last(parts[count - 1], wanted - |newer|) + newer
  }

  lemma {:induction false} GatheredIsLast(parts: seq<Bytes>, count: nat, wanted: nat)
    requires count <= |parts|
    ensures Gathered(parts, count, wanted) == Last(Joined(parts[..count]), wanted)
  {
    if count > 0 {
      GatheredIsLast(parts, count - 1, wanted);
      JoinedOldest(parts[..count]);
      assert parts[..count][..count - 1] == parts[..count - 1];
      LastOfJoin(parts[count - 1], Joined(parts[..count - 1]), wanted);
    }
  }

  /** Once enough has been read, older files no longer matter. */
  lemma {:induction false} GatheredSettled(parts: seq<Bytes>, count: nat, more: nat, wanted: nat)
    requires count <= more <= |parts| && (count == more || |Gathered(parts, count, wanted)| == wanted)
    ensures Gathered(parts, more, wanted) == Gathered(parts, count, wanted)
    decreases more
  {
    if count < more {
      GatheredSettled(parts, count, more - 1, wanted);
    }
  }

  /** Stopping early or at the end, what has been gathered is the tail of all files. */
  lemma GatheredIsTail(parts: seq<Bytes>, count: nat, wanted: nat)
    requires count <= |parts| && (count == |parts| || |Gathered(parts, count, wanted)| == wanted)
    ensures Gathered(parts, count, wanted) == Last(Joined(parts), wanted)
  {
    GatheredSettled(parts, count, |parts|, wanted);
    GatheredIsLast(parts, |parts|, wanted);
    assert parts[..|parts|] == parts;
  }

  /** The reading loop, newest file first, until enough has been read. */
  method Gather(files: Files, wanted: nat, rotations: nat) returns (joined: Bytes)
    ensures joined == Last(Joined(Contents(files, rotations)), wanted)
  {
    ghost var parts := Contents(files, rotations);
    var remaining := wanted;
    joined := [];
    var index := 0;
    while index <= rotations && remaining > 0
      invariant 0 <= index <= |parts| && remaining == wanted - |joined|
      invariant joined == Gathered(parts, index, wanted)
    {
      var text := ReadTail(Content(files, index), remaining);
      if |text| > 0 {
        joined := text + joined;
        remaining := remaining - |text|;
      } else {
        assert text + joined == joined;
      }
      index := index + 1;
    }
    GatheredIsTail(parts, index, wanted);
  }

  /** The tail reader across rotations returns the last `maxChars` characters of the files
      joined oldest first; a limit of zero still yields one character, a negative one none. */
  method ReadTailAcrossRotations(files: Files, maxChars: int, rotations: int) returns (result: Bytes)
    ensures result == Tail(Joined(Contents(files, Max(0, rotations))), maxChars)
  {
    var joined := Gather(files, Max(1, maxChars), Max(0, rotations));
    result := Clip(joined, maxChars);
  }

  /** A text that is too long is sliced. */
  function Clip(joined: Bytes, maxChars: int): (r: Bytes)
    ensures |joined| <= Max(1, maxChars) ==> r == if maxChars >= 0 then joined else []
  {
    if |joined| > maxChars then SliceFromEnd(joined, maxChars) else joined
  }

  lemma LastOfSuffix(a: Bytes, b: Bytes, m: nat)
    requires IsSuffix(a, b)
    ensures Last(a, m) == Last(b, Min(m, |a|))
  {
  }

  /** What is left of the tail of a whole stream when its last `kept` characters survive. */
  function TailOf(all: Bytes, maxChars: int, kept: nat): Bytes {
    if maxChars >= 0 then Last(all, Min(Max(1, maxChars), kept)) else []
  }

  /** End to end: however the stream was cut into writes, the tail of a log that started empty
      is exactly the last min(maxChars, retained) characters of everything written. */
  lemma TailEndToEnd(rotations: nat, limit: nat, chunks: seq<Bytes>, maxChars: int)
    requires limit > 0
    ensures var all := Concat(chunks);
            var kept := Joined(WriteAll(Log(Contents(map[], rotations), 0), limit, chunks).parts);
            && Tail(kept, maxChars) == TailOf(all, maxChars, |kept|)
            && Min(|all|, rotations * limit) <= |kept| <= |all|
  {
    var start := Log(Contents(map[], rotations), 0);
    ChunkingIrrelevant(start, limit, chunks);
    RetainsEnough(rotations, limit, Concat(chunks));
    TailOfSuffix(Joined(Written(start, limit, Concat(chunks)).parts), Concat(chunks), maxChars);
  }

  lemma TailOfSuffix(kept: Bytes, all: Bytes, maxChars: int)
    requires IsSuffix(kept, all)
    ensures Tail(kept, maxChars) == TailOf(all, maxChars, |kept|)
  {
    LastOfSuffix(kept, all, Max(1, maxChars));
  }

  /** The whole path through the code: a sink opened where no files exist, any writes to it, and
      the tail reader on the files it leaves. */
  method WriteThenReadTail(chunks: seq<Bytes>, maxBytes: int, rotations: int, maxChars: int)
    returns (tail: Bytes, kept: nat)
    ensures tail == TailOf(Concat(chunks), maxChars, kept)
    ensures Min(|Concat(chunks)|, Max(0, rotations) * Max(4096, if maxBytes == 0 then 32 * 1024 * 1024 else maxBytes))
            <= kept <= |Concat(chunks)|
  {
    var sink := new RotatingFileSink(map[], maxBytes, rotations);
    ghost var start := Log(Contents(map[], Max(0, rotations)), 0);
    for i := 0 to |chunks|
      invariant fresh(sink) && sink.Valid() && sink.descriptor
      invariant sink.rotations == Max(0, rotations)
      invariant sink.State() == WriteAll(start, sink.limit, chunks[..i])
    {
      assert chunks[..i + 1][..i] == chunks[..i];
      var raised;
      ghost var written;
      raised, written := sink.Write(chunks[i], NoFault);
    }
    assert chunks[..|chunks|] == chunks;
    tail := ReadTailAcrossRotations(sink.files, maxChars, rotations);
    kept := |Joined(sink.State().parts)|;
    TailEndToEnd(sink.rotations, sink.limit, chunks, maxChars);
  }
}
