/**
  The trailer of an executable with an attached offline payload
  (cpp-bootstrap/src/bundle.cpp): the stub, the payload, the payload size as eight
  little-endian bytes, and a sixteen-byte magic text.
 */
module BundleTrailer {
  import opened BundleLimits

  type Byte = b: int | 0 <= b < 256
  type Bytes = seq<Byte>

  datatype Error = AttachBoundsOrExists | TrailerBounds | TrailerInvalid
  datatype Result<T> = Ok(value: T) | Err(error: Error)

  const SIZE_BYTES := 8

  /** "DEVBOX-OFFLINE01" */
  const MAGIC: Bytes := [68, 69, 86, 66, 79, 88, 45, 79, 70, 70, 76, 73, 78, 69, 48, 49]

  // ---------------------------------------------------------------------------------------
  // Little-endian numbers

  function Power(k: nat): nat { if k == 0 then 1 else 256 * Power(k - 1) }

  /** `n >> (8 * k)`. */
  function Shifted(n: nat, k: nat): nat { if k == 0 then n else Shifted(n, k - 1) / 256 }

  /** The low `k` bytes of a number, lowest first. */
  function Encoded(n: nat, k: nat): (r: Bytes)
    ensures |r| == k
  {
    if k == 0 then [] else [n % 256] + Encoded(n / 256, k - 1)
  }

  function Decoded(bytes: Bytes): nat {
    if bytes == [] then 0 else bytes[0] + 256 * Decoded(bytes[1..])
  }

  lemma {:induction false} DecodeEncoded(n: nat, k: nat)
    requires n < Power(k)
    ensures Decoded(Encoded(n, k)) == n
  {
    if k > 0 {
      DecodeEncoded(n / 256, k - 1);
      assert Encoded(n, k)[1..] == Encoded(n / 256, k - 1);
    }
  }

  lemma {:induction false} EncodeDecoded(bytes: Bytes)
    ensures Encoded(Decoded(bytes), |bytes|) == bytes
  {
    if bytes != [] {
      EncodeDecoded(bytes[1..]);
      assert (bytes[0] + 256 * Decoded(bytes[1..])) / 256 == Decoded(bytes[1..]);
    }
  }

  lemma {:induction false} ShiftedByOne(n: nat, k: nat)
    ensures Shifted(n / 256, k) == Shifted(n, k + 1)
  {
    if k > 0 {
      ShiftedByOne(n, k - 1);
    }
  }

  lemma {:induction false} EncodedAt(n: nat, k: nat, i: nat)
    requires i < k
    ensures Encoded(n, k)[i] == Shifted(n, i) % 256
  {
    if i > 0 {
      EncodedAt(n / 256, k - 1, i - 1);
      ShiftedByOne(n, i - 1);
    }
  }

  lemma Distribute(a: nat, b: nat, c: nat, d: nat)
    ensures a + 256 * (b + c * d) == a + 256 * b + c * (256 * d)
  {
    assert 256 * (b + c * d) == 256 * b + 256 * (c * d);
    assert 256 * (c * d) == c * (256 * d);
  }

  lemma {:induction false} DecodedLast(bytes: Bytes)
    requires bytes != []
    ensures var n := |bytes| - 1; Decoded(bytes) == Decoded(bytes[..n]) + bytes[n] * Power(n)
  {
    var n := |bytes| - 1;
    if n > 0 {
      DecodedLast(bytes[1..]);
      var middle := bytes[1..][..n - 1];
      assert middle == bytes[..n][1..];
      assert Decoded(bytes[..n]) == bytes[0] + 256 * Decoded(middle);
      assert Decoded(bytes) == bytes[0] + 256 * (Decoded(middle) + bytes[n] * Power(n - 1));
      Distribute(bytes[0], Decoded(middle), bytes[n], Power(n - 1));
    } else {
      assert bytes[..0] == [] && Power(0) == 1;
      assert Decoded(bytes[1..]) == 0;
    }
  }

  lemma EightBytesHoldPayload(n: nat)
    requires n <= MAXIMUM_PAYLOAD
    ensures n < Power(SIZE_BYTES)
  {
    assert Power(4) == 4294967296;
    assert Power(8) >= Power(4);
  }

  // ---------------------------------------------------------------------------------------
  // Attaching and finding a payload

  function Attached(stub: Bytes, payload: Bytes): Bytes {
    stub + payload + Encoded(|payload|, SIZE_BYTES) + MAGIC
  }

  method Attach(stub: Bytes, payload: Bytes, outputExists: bool) returns (r: Result<Bytes>)
    ensures r == if 0 < |payload| <= MAXIMUM_PAYLOAD && !outputExists
                 then Ok(Attached(stub, payload)) else Err(AttachBoundsOrExists)
  {
    var size := |payload|;
    if size == 0 || size > MAXIMUM_PAYLOAD || outputExists {
      return Err(AttachBoundsOrExists);
    }
    var destination := stub + payload;
    var trailer: Bytes := [];
    for i := 0 to SIZE_BYTES
      invariant trailer == Encoded(size, SIZE_BYTES)[..i]
    {
      EncodedAt(size, SIZE_BYTES, i);
      trailer := trailer + [Shifted(size, i) % 256];
    }
    assert trailer == Encoded(size, SIZE_BYTES);
    r := Ok(destination + trailer + MAGIC);
  }

  /** Where a payload of the expected size lies in a file, if the file ends in its trailer. */
  function Found(file: Bytes, expected: nat): Result<nat> {
    if !(0 < expected <= MAXIMUM_PAYLOAD && expected + 24 <= |file|) then Err(TrailerBounds)
    else if file[|file| - 24..] != Encoded(expected, SIZE_BYTES) + MAGIC then Err(TrailerInvalid)
    else Ok(|file| - 24 - expected)
  }

  /** Reading the size and the magic finds the payload of a file that ends in the trailer for
      the expected size, and of no other. */
  method PayloadOffset(file: Bytes, expected: nat) returns (r: Result<nat>)
    ensures r == Found(file, expected)
  {
    var size := |file|;
    if expected == 0 || expected > MAXIMUM_PAYLOAD || size < expected + 24 {
      return Err(TrailerBounds);
    }
    var trailer := file[size - 24..];
    var actual := 0;
    for i := 0 to 8
      invariant actual == Decoded(trailer[..i])
    {
      DecodedLast(trailer[..i + 1]);
      assert trailer[..i + 1][..i] == trailer[..i];
      actual := actual + trailer[i] * Power(i);
    }
    TrailerMatches(trailer, expected);
    if actual != expected || trailer[8..] != MAGIC {
      return Err(TrailerInvalid);
    }
    r := Ok(size - 24 - expected);
  }

  /** Comparing the decoded size and the magic compares the whole trailer. */
  lemma TrailerMatches(trailer: Bytes, expected: nat)
    requires |trailer| == 24 && expected <= MAXIMUM_PAYLOAD
    ensures Decoded(trailer[..8]) == expected && trailer[8..] == MAGIC
            <==> trailer == Encoded(expected, SIZE_BYTES) + MAGIC
  {
    EncodeDecoded(trailer[..8]);
    EightBytesHoldPayload(expected);
    DecodeEncoded(expected, SIZE_BYTES);
    assert trailer == trailer[..8] + trailer[8..];
    assert |MAGIC| == 16;
  }

  lemma EncodedInjective(a: nat, b: nat, k: nat)
    requires a < Power(k) && b < Power(k) && Encoded(a, k) == Encoded(b, k)
    ensures a == b
  {
    DecodeEncoded(a, k);
    DecodeEncoded(b, k);
  }

  lemma EndOf(a: Bytes, b: Bytes, c: Bytes)
    ensures (a + b + c)[|a|..] == b + c
  {
  }

  lemma SameStart(a: Bytes, b: Bytes, c: Bytes)
    requires |a| == |b| && a + c == b + c
    ensures a == b
  {
    assert a == (a + c)[..|a|] && b == (b + c)[..|b|];
  }

  /** In an attached file the payload is found exactly at the end of the stub and exactly under
      its own size, whatever bytes the stub and the payload hold, and it is unchanged. */
  lemma AttachedPayload(stub: Bytes, payload: Bytes, expected: nat, offset: nat)
    requires 0 < |payload| <= MAXIMUM_PAYLOAD
    ensures Found(Attached(stub, payload), expected) == Ok(offset)
            <==> expected == |payload| && offset == |stub|
    ensures Attached(stub, payload)[|stub|..|stub| + |payload|] == payload
  {
    var file, own := Attached(stub, payload), Encoded(|payload|, SIZE_BYTES);
    EndOf(stub + payload, own, MAGIC);
    if Found(file, expected) == Ok(offset) {
      SameStart(own, Encoded(expected, SIZE_BYTES), MAGIC);
      EightBytesHoldPayload(|payload|);
      EightBytesHoldPayload(expected);
      EncodedInjective(|payload|, expected, SIZE_BYTES);
    }
  }

  /** Only attached files are accepted: a file in which a payload is found is the attachment of
      that payload to the bytes before it. */
  lemma FoundIsAttached(file: Bytes, expected: nat)
    requires Found(file, expected).Ok?
    ensures var offset := Found(file, expected).value;
            && offset + expected <= |file|
            && file == Attached(file[..offset], file[offset..offset + expected])
  {
    var offset := Found(file, expected).value;
    var stub, payload := file[..offset], file[offset..offset + expected];
    assert stub + payload == file[..offset + expected];
    assert stub + payload + Encoded(expected, SIZE_BYTES) + MAGIC
        == stub + payload + (Encoded(expected, SIZE_BYTES) + MAGIC);
    assert file == file[..|file| - 24] + file[|file| - 24..];
  }
}
