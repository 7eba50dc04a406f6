/**
  Packing files into an offline payload and extracting them again
  (cpp-bootstrap/src/bundle.cpp).  The compressor, the decompressor and the digest are any
  functions; the round trip needs only that the decompressor inverts the compressor.
 */
module BundlePackage {
  import opened Common
  import opened BundleLimits
  import opened BundleManifest
  import BundleStream
  import BundleTrailer

  type Byte = BundleTrailer.Byte

  datatype Codec<!S, !B> = Codec(
    deflate: seq<B> -> seq<B>, start: S, inflate: (S, seq<B>) -> BundleStream.Response<S, B>,
    digest: seq<B> -> string)

  /** A file to be packed; `regular` is false for a link or anything that is not a file, and
      `stable` is false if its digest or size differs after it was compressed. */
  datatype File<B> = File(name: string, data: seq<B>, executable: bool, regular: bool, stable: bool)

  datatype Header = Header(source: string, tree: string, target: string)

  datatype Error = InputInvalid | InputChanged | PackageTooLarge | Invalid | DestinationExists | PayloadBounds
                 | PayloadDigestMismatch | Stream(error: BundleStream.Error) | FileDigestMismatch
  datatype Result<T> = Ok(value: T) | Err(error: Error)

  // ---------------------------------------------------------------------------------------
  // Packing

  function Payload<S, B>(c: Codec<S, B>, files: seq<File<B>>, n: nat): seq<B>
    requires n <= |files|
  {
    if n == 0 then [] else Payload(c, files, n - 1) + c.deflate(files[n - 1].data)
  }

  function Size<B>(files: seq<File<B>>, n: nat): nat
    requires n <= |files|
  {
    if n == 0 then 0 else Size(files, n - 1) + |files[n - 1].data|
  }

  /** The entry of file `i`: it starts where the compressed files before it end. */
  function EntryOf<S, B>(c: Codec<S, B>, files: seq<File<B>>, i: nat): Entry
    requires i < |files|
  {
    var f := files[i];
    Entry(f.name, Some(|f.data|), Some(|c.deflate(f.data)|), Some(|Payload(c, files, i)|), c.digest(f.data),
          Some(f.executable))
  }

  function Entries<S, B>(c: Codec<S, B>, files: seq<File<B>>, n: nat): (r: seq<Entry>)
    requires n <= |files|
    ensures |r| == n && forall i :: 0 <= i < n ==> r[i] == EntryOf(c, files, i)
  {
    if n == 0 then [] else Entries(c, files, n - 1) + [EntryOf(c, files, n - 1)]
  }

  function ManifestOf<S, B>(c: Codec<S, B>, h: Header, files: seq<File<B>>): Manifest {
    var payload := Payload(c, files, |files|);
    Manifest(1, "devbox-offline-zlib", h.source, h.tree, h.target, c.digest(payload),
             Some(Entries(c, files, |files|)), Some(|payload|), Some(Size(files, |files|)))
  }

  predicate Packable<S, B>(c: Codec<S, B>, files: seq<File<B>>, i: nat)
    requires i < |files|
  {
    && SafeName(files[i].name) && files[i].regular && files[i].stable && |files[i].data| <= MAXIMUM_FILE
    && |Payload(c, files, i + 1)| <= MAXIMUM_PAYLOAD && Size(files, i + 1) <= MAXIMUM_PAYLOAD
  }

  ghost predicate AllPackable<S, B>(c: Codec<S, B>, files: seq<File<B>>) {
    forall i :: 0 <= i < |files| ==> Packable(c, files, i)
  }

  /** The loop over the files. */
  method PackFiles<S, B>(c: Codec<S, B>, files: seq<File<B>>) returns (error: Option<Error>, payload: seq<B>,
                                                              entries: seq<Entry>, offset: nat, expanded: nat)
    ensures error.None? <==> AllPackable(c, files)
    ensures error.None? ==>
              && payload == Payload(c, files, |files|) && entries == Entries(c, files, |files|)
              && offset == |payload| && expanded == Size(files, |files|)
  {
    error, payload, entries, offset, expanded := None, [], [], 0, 0;
    for i := 0 to |files|
      invariant payload == Payload(c, files, i) && entries == Entries(c, files, i)
      invariant offset == |payload| && expanded == Size(files, i)
      invariant forall j :: 0 <= j < i ==> Packable(c, files, j)
    {
      var f := files[i];
      if !SafeName(f.name) || !f.regular || |f.data| > MAXIMUM_FILE {
        assert !Packable(c, files, i);
        error := Some(InputInvalid);
        return;
      }
      var compressed := c.deflate(f.data);
      if !f.stable {
        assert !Packable(c, files, i);
        error := Some(InputChanged);
        return;
      }
      payload := payload + compressed;
      var entry := Entry(f.name, Some(|f.data|), Some(|compressed|), Some(offset), c.digest(f.data),
                         Some(f.executable));
      assert entry == EntryOf(c, files, i);
      entries := entries + [entry];
      offset := offset + |compressed|;
      expanded := expanded + |f.data|;
      if offset > MAXIMUM_PAYLOAD || expanded > MAXIMUM_PAYLOAD {
        assert !Packable(c, files, i);
        error := Some(PackageTooLarge);
        return;
      }
    }
  }

  /** Packing succeeds exactly when every file is packable and the manifest it writes is valid,
      and then the payload is the compressed files in order. */
  method Pack<S, B>(c: Codec<S, B>, h: Header, files: seq<File<B>>) returns (r: Result<(Manifest, seq<B>)>)
    ensures r.Ok? <==> AllPackable(c, files) && Valid(ManifestOf(c, h, files))
    ensures r.Ok? ==> r.value == (ManifestOf(c, h, files), Payload(c, files, |files|))
  {
    var failed, payload, entries, offset, expanded := PackFiles(c, files);
    if failed.Some? {
      return Err(failed.value);
    }
    var m := Manifest(1, "devbox-offline-zlib", h.source, h.tree, h.target, c.digest(payload), Some(entries),
                      Some(offset), Some(expanded));
    assert m == ManifestOf(c, h, files);
    var error := Validate(m);
    r := if error.Some? then Err(Invalid) else Ok((m, payload));
  }

  // ---------------------------------------------------------------------------------------
  // Extracting

  datatype Extracted<B> = Extracted(name: string, data: seq<B>, executable: bool)

  /** Expanding the files one after another from where the input stands. */
  function ExtractFrom<S(!new), B(!new)>(c: Codec<S, B>, entries: seq<Entry>, input: seq<B>): Result<seq<Extracted<B>>>
    requires BundleStream.Interface(c.inflate)
  {
    if entries == [] then Ok([])
    else
      var e := entries[0];
      var r := BundleStream.ExpandLoop(c.inflate, c.start, [], input, Number(e.compressed), Number(e.bytes), []);
      if r.Failed? then Err(Stream(r.error))
      else if c.digest(r.output) != e.sha256 then Err(FileDigestMismatch)
      else
        var others := ExtractFrom(c, entries[1..], r.rest);
        if others.Err? then others
        else Ok([Extracted(e.name, r.output, e.executable == Some(true))] + others.value)
  }

  /** Extracting from a payload at `offset` under a manifest that has been validated. */
  function ExtractChecked<S(!new), B(!new)>(c: Codec<S, B>, file: seq<B>, offset: nat, m: Manifest): Result<seq<Extracted<B>>>
    requires BundleStream.Interface(c.inflate) && m.files.Some?
  {
    var size := Number(m.payloadBytes);
    if offset + size > |file| then Err(PayloadBounds)
    else if c.digest(file[offset..offset + size]) != m.payloadSha256 then Err(PayloadDigestMismatch)
    else ExtractFrom(c, m.files.value, file[offset..])
  }

  ghost function Extraction<S(!new), B(!new)>(c: Codec<S, B>, file: seq<B>, offset: nat, m: Manifest): Result<seq<Extracted<B>>>
    requires BundleStream.Interface(c.inflate)
  {
    if !Valid(m) then Err(Invalid) else ExtractChecked(c, file, offset, m)
  }

  lemma PrependAssociates<B>(first: seq<Extracted<B>>, x: Extracted<B>, others: seq<Extracted<B>>)
    ensures first + ([x] + others) == first + [x] + others
  {
  }

  /** The loop over the entries. */
  method ExtractFiles<S(!new), B(!new)>(c: Codec<S, B>, entries: seq<Entry>, start: seq<B>)
    returns (r: Result<seq<Extracted<B>>>)
    requires BundleStream.Interface(c.inflate)
    ensures r == ExtractFrom(c, entries, start)
  {
    var input := start;
    var done: seq<Extracted<B>> := [];
    ghost var whole := ExtractFrom(c, entries, input);
    assert entries[0..] == entries && (whole.Ok? ==> done + whole.value == whole.value);
    for i := 0 to |entries|
      invariant var rest := ExtractFrom(c, entries[i..], input);
                if rest.Err? then whole == rest else whole == Ok(done + rest.value)
    {
      var e := entries[i];
      assert entries[i..][1..] == entries[i + 1..];
      var expansion := BundleStream.ExpandFile(c.inflate, c.start, input, Number(e.compressed), Number(e.bytes));
      if expansion.Failed? {
        return Err(Stream(expansion.error));
      }
      if c.digest(expansion.output) != e.sha256 {
        return Err(FileDigestMismatch);
      }
      input := expansion.rest;
      var x := Extracted(e.name, expansion.output, e.executable == Some(true));
      ghost var others := ExtractFrom(c, entries[i + 1..], input);
      if others.Ok? {
        PrependAssociates(done, x, others.value);
      }
      done := done + [x];
    }
    assert done + [] == done;
    r := Ok(done);
  }

  method Extract<S(!new), B(!new)>(c: Codec<S, B>, file: seq<B>, offset: nat, m: Manifest, destinationExists: bool)
    returns (r: Result<seq<Extracted<B>>>)
    requires BundleStream.Interface(c.inflate)
    ensures r == if Valid(m) && destinationExists then Err(DestinationExists) else Extraction(c, file, offset, m)
  {
    var error := Validate(m);
    if error.Some? {
      return Err(Invalid);
    }
    if destinationExists {
      return Err(DestinationExists);
    }
    var size := Number(m.payloadBytes);
    if size > MAXIMUM_PAYLOAD || offset > |file| || size > |file| - offset {
      Tiles(m, 0);
      return Err(PayloadBounds);
    }
    if c.digest(file[offset..offset + size]) != m.payloadSha256 {
      return Err(PayloadDigestMismatch);
    }
    r := ExtractFiles(c, m.files.value, file[offset..]);
  }

  /** Files that extraction delivers have the names, sizes and digests of the manifest. */
  lemma {:induction false} ExtractedMatches<S(!new), B(!new)>(c: Codec<S, B>, entries: seq<Entry>, input: seq<B>)
    requires BundleStream.Interface(c.inflate) && ExtractFrom(c, entries, input).Ok?
    ensures var files := ExtractFrom(c, entries, input).value;
            && |files| == |entries|
            && forall i :: 0 <= i < |files| ==>
                 && files[i].name == entries[i].name
                 && |files[i].data| == Number(entries[i].bytes)
                 && c.digest(files[i].data) == entries[i].sha256
  {
    if entries != [] {
      var e := entries[0];
      var r := BundleStream.ExpandLoop(c.inflate, c.start, [], input, Number(e.compressed), Number(e.bytes), []);
      BundleStream.ExpandBounds(c.inflate, c.start, [], input, Number(e.compressed), Number(e.bytes), []);
      ExtractedMatches(c, entries[1..], r.rest);
    }
  }

  // ---------------------------------------------------------------------------------------
  // The round trip

  /** The decompressor inverts the compressor, which never produces an empty stream. */
  ghost predicate InvertsDeflate<S(!new), B(!new)>(c: Codec<S, B>, decodes: (S, seq<B>, seq<B>) -> bool) {
    && BundleStream.Interface(c.inflate)
    && BundleStream.Inverts(c.inflate, decodes)
    && forall data :: c.deflate(data) != [] && decodes(c.start, c.deflate(data), data)
  }

  function Contents<B>(files: seq<File<B>>): seq<Extracted<B>> {
    seq(|files|, i requires 0 <= i < |files| => Extracted(files[i].name, files[i].data, files[i].executable))
  }

  lemma {:induction false} PayloadPrefix<S, B>(c: Codec<S, B>, files: seq<File<B>>, n: nat)
    requires n <= |files|
    ensures Payload(c, files, n) <= Payload(c, files, |files|)
    decreases |files| - n
  {
    if n < |files| {
      PayloadPrefix(c, files, n + 1);
    }
  }

  /** A compressed file at the start of the input expands to its data. */
  lemma FileExpands<S(!new), B(!new)>(c: Codec<S, B>, decodes: (S, seq<B>, seq<B>) -> bool, data: seq<B>, input: seq<B>)
    requires InvertsDeflate(c, decodes) && c.deflate(data) <= input
    ensures var n := |c.deflate(data)|;
            BundleStream.ExpandLoop(c.inflate, c.start, [], input, n, |data|, [])
            == BundleStream.Done(data, input[n..])
  {
    var z := c.deflate(data);
    assert [] + input[..|z|] == z && [] + data == data;
    BundleStream.ExpandInverts(c.inflate, decodes, c.start, [], input, |z|, [], data);
  }

  /** Extraction goes on after a file that expands to the right digest. */
  lemma ExtractStep<S(!new), B(!new)>(c: Codec<S, B>, entries: seq<Entry>, input: seq<B>, data: seq<B>, rest: seq<B>,
                             others: seq<Extracted<B>>)
    requires BundleStream.Interface(c.inflate) && entries != []
    requires var e := entries[0];
             && BundleStream.ExpandLoop(c.inflate, c.start, [], input, Number(e.compressed), Number(e.bytes), [])
                == BundleStream.Done(data, rest)
             && c.digest(data) == e.sha256
    requires ExtractFrom(c, entries[1..], rest) == Ok(others)
    ensures ExtractFrom(c, entries, input)
            == Ok([Extracted(entries[0].name, data, entries[0].executable == Some(true))] + others)
  {
  }

  /** The entries from `n` on extract from `input` to the files from `n` on. */
  ghost predicate Extracts<S(!new), B(!new)>(c: Codec<S, B>, files: seq<File<B>>, n: nat, input: seq<B>)
    requires BundleStream.Interface(c.inflate) && n <= |files|
  {
    ExtractFrom(c, Entries(c, files, |files|)[n..], input) == Ok(Contents(files)[n..])
  }

  lemma OneMoreExtracts<S(!new), B(!new)>(c: Codec<S, B>, files: seq<File<B>>, n: nat, input: seq<B>, rest: seq<B>)
    requires BundleStream.Interface(c.inflate) && n < |files| && Extracts(c, files, n + 1, rest)
    requires var data := files[n].data;
             BundleStream.ExpandLoop(c.inflate, c.start, [], input, |c.deflate(data)|, |data|, [])
             == BundleStream.Done(data, rest)
    ensures Extracts(c, files, n, input)
  {
    EntriesFrom(c, files, n);
    ExtractStep(c, Entries(c, files, |files|)[n..], input, files[n].data, rest, Contents(files)[n + 1..]);
    ContentsFrom(files, n);
  }

  lemma EntriesFrom<S, B>(c: Codec<S, B>, files: seq<File<B>>, n: nat)
    requires n < |files|
    ensures var rest := Entries(c, files, |files|)[n..];
            rest[0] == EntryOf(c, files, n) && rest[1..] == Entries(c, files, |files|)[n + 1..]
  {
  }

  lemma ContentsFrom<B>(files: seq<File<B>>, n: nat)
    requires n < |files|
    ensures Contents(files)[n..]
         == [Extracted(files[n].name, files[n].data, files[n].executable)] + Contents(files)[n + 1..]
  {
  }

  lemma {:induction false} RestExtracts<S(!new), B(!new)>(
      c: Codec<S, B>, decodes: (S, seq<B>, seq<B>) -> bool, files: seq<File<B>>, n: nat, input: seq<B>)
    requires InvertsDeflate(c, decodes) && n <= |files|
    requires Payload(c, files, |files|) <= Payload(c, files, n) + input
    ensures Extracts(c, files, n, input)
    decreases |files| - n
  {
    if n < |files| {
      var z := c.deflate(files[n].data);
      PayloadPrefix(c, files, n + 1);
      FirstPart(Payload(c, files, n), z, input);
      RestExtracts(c, decodes, files, n + 1, input[|z|..]);
      FileExpands(c, decodes, files[n].data, input);
      OneMoreExtracts(c, files, n, input, input[|z|..]);
    } else {
      assert Entries(c, files, n)[n..] == [] && Contents(files)[n..] == [];
    }
  }

  /** If what follows `a` begins with `z`, the input after `a` does. */
  lemma FirstPart<B>(a: seq<B>, z: seq<B>, input: seq<B>)
    requires a + z <= a + input
    ensures |z| <= |input| && input[..|z|] == z && a + z + input[|z|..] == a + input
  {
    assert (a + input)[|a|..|a| + |z|] == input[..|z|];
    assert (a + z)[|a|..] == z;
  }

  lemma HeldPayloadExtracts<S(!new), B(!new)>(c: Codec<S, B>, decodes: (S, seq<B>, seq<B>) -> bool, files: seq<File<B>>, input: seq<B>)
    requires InvertsDeflate(c, decodes) && Payload(c, files, |files|) <= input
    ensures ExtractFrom(c, Entries(c, files, |files|), input) == Ok(Contents(files))
  {
    assert [] + input == input;
    RestExtracts(c, decodes, files, 0, input);
    assert Entries(c, files, |files|)[0..] == Entries(c, files, |files|);
    assert Contents(files)[0..] == Contents(files);
  }

  /** A payload of the right size and digest is extracted. */
  lemma ChecksPass<S(!new), B(!new)>(c: Codec<S, B>, file: seq<B>, offset: nat, m: Manifest, payload: seq<B>)
    requires BundleStream.Interface(c.inflate) && m.files.Some?
    requires Number(m.payloadBytes) == |payload| && m.payloadSha256 == c.digest(payload)
    requires offset + |payload| <= |file| && file[offset..offset + |payload|] == payload
    ensures ExtractChecked(c, file, offset, m) == ExtractFrom(c, m.files.value, file[offset..])
  {
  }

  /** Extracting from a file that holds a packed payload at `offset` gives back every file. */
  lemma {:induction false} RoundTrip<S(!new), B(!new)>(c: Codec<S, B>, decodes: (S, seq<B>, seq<B>) -> bool, h: Header, files: seq<File<B>>,
                           file: seq<B>, offset: nat)
    requires InvertsDeflate(c, decodes)
    requires var payload := Payload(c, files, |files|);
             offset + |payload| <= |file| && file[offset..offset + |payload|] == payload
    ensures ExtractChecked(c, file, offset, ManifestOf(c, h, files)) == Ok(Contents(files))
  {
    var payload := Payload(c, files, |files|);
    assert payload <= file[offset..] by {
      assert file[offset..][..|payload|] == file[offset..offset + |payload|];
    }
    HeldPayloadExtracts(c, decodes, files, file[offset..]);
    ChecksPass(c, file, offset, ManifestOf(c, h, files), payload);
  }

  /** Packed, attached to any executable, found again and extracted, every file comes back. */
  lemma {:induction false} AttachedRoundTrip<S(!new)>(c: Codec<S, Byte>, decodes: (S, seq<Byte>, seq<Byte>) -> bool, h: Header,
                                   files: seq<File<Byte>>, stub: seq<Byte>)
    requires InvertsDeflate(c, decodes) && Valid(ManifestOf(c, h, files))
    ensures var m, payload := ManifestOf(c, h, files), Payload(c, files, |files|);
            var file := BundleTrailer.Attached(stub, payload);
            && BundleTrailer.Found(file, Number(m.payloadBytes)) == BundleTrailer.Ok(|stub|)
            && Extraction(c, file, |stub|, m) == Ok(Contents(files))
  {
    var m, payload := ManifestOf(c, h, files), Payload(c, files, |files|);
    var file := BundleTrailer.Attached(stub, payload);
    Tiles(m, 0);
    assert Owns(m.files.value, 0, Number(m.files.value[0].offset));
    BundleTrailer.AttachedPayload(stub, payload, |payload|, |stub|);
    RoundTrip(c, decodes, h, files, file, |stub|);
  }
}
