/**
  Validation of an offline bundle manifest (cpp-bootstrap/src/bundle.cpp).  A field read as
  an unsigned number is absent when it has another type.  Only `expandedBytes` is read without
  a test of its type: it stands for the number that it is converted to, so that 10.5 is the
  same as 10, and is absent when there is no conversion.  A text field reads as empty when it
  is missing.  Running sums are 64-bit, and every operation on them is shown not to wrap.
 */
module BundleManifest {
  import opened Common
  import opened BundleLimits

  newtype u64 = x: int | 0 <= x < 0x1_0000_0000_0000_0000

  datatype Entry = Entry(name: string, bytes: Option<nat>, compressed: Option<nat>, offset: Option<nat>,
                         sha256: string, executable: Option<bool>)

  datatype Manifest = Manifest(
    schema: nat, format: string, source: string, tree: string, target: string, payloadSha256: string,
    files: Option<seq<Entry>>, payloadBytes: Option<nat>, expandedBytes: Option<nat>)

  datatype Error = ManifestInvalid | EntryInvalid | EntryBounds | PayloadSizeMismatch

  // ---------------------------------------------------------------------------------------
  // Names and digests

  predicate DigestText(value: string, length: nat) {
    |value| == length && forall i :: 0 <= i < |value| ==> '0' <= value[i] <= '9' || 'a' <= value[i] <= 'f'
  }

  predicate NameChar(c: char) {
    'a' <= c <= 'z' || 'A' <= c <= 'Z' || '0' <= c <= '9' || c == '-' || c == '_' || c == '.'
  }

  function LowerChar(c: char): char { if 'A' <= c <= 'Z' then c + 32 as char else c }

  function Lower(s: string): string { seq(|s|, i requires 0 <= i < |s| => LowerChar(s[i])) }

  /** The part of a name before its first dot. */
  function Stem(name: string): string {
    if name == "" || name[0] == '.' then "" else [name[0]] + Stem(name[1..])
  }

  predicate DeviceStem(stem: string) {
    || stem in ["con", "prn", "aux", "nul", "clock$"]
    || (|stem| == 4 && stem[..3] in ["com", "lpt"] && '0' <= stem[3] <= '9')
  }

  predicate SafeName(name: string) {
    && 0 < |name| <= 128 && name[0] != '.' && name[|name| - 1] != '.'
    && (forall i :: 0 <= i < |name| ==> NameChar(name[i]))
    && !DeviceStem(Lower(Stem(name)))
  }

  // ---------------------------------------------------------------------------------------
  // What a valid manifest is

  function Number(value: Option<nat>): nat { if value.Some? then value.value else 0 }

  /** The compressed and the expanded bytes of the first `n` files. */
  function Compressed(files: seq<Entry>, n: nat): nat
    requires n <= |files|
  {
    if n == 0 then 0 else Compressed(files, n - 1) + Number(files[n - 1].compressed)
  }

  function Expanded(files: seq<Entry>, n: nat): nat
    requires n <= |files|
  {
    if n == 0 then 0 else Expanded(files, n - 1) + Number(files[n - 1].bytes)
  }

  predicate ValidHeader(m: Manifest) {
    && m.schema == 1 && m.format == "devbox-offline-zlib"
    && DigestText(m.source, 40) && DigestText(m.tree, 40) && DigestText(m.payloadSha256, 64)
    && m.files.Some? && 0 < |m.files.value| <= 32
    && m.target != ""
  }

  predicate ValidEntry(e: Entry) {
    && SafeName(e.name) && DigestText(e.sha256, 64)
    && e.executable.Some? && e.bytes.Some? && e.compressed.Some? && e.offset.Some?
  }

  /** No earlier file has the same name up to case. */
  ghost predicate FreshName(files: seq<Entry>, i: nat)
    requires i < |files|
  {
    forall j :: 0 <= j < i ==> Lower(files[j].name) != Lower(files[i].name)
  }

  /** The file starts where the files before it end, and the sums stay within bounds. */
  ghost predicate ValidPlace(files: seq<Entry>, i: nat)
    requires i < |files|
  {
    && Number(files[i].offset) == Compressed(files, i)
    && Number(files[i].compressed) > 0
    && Number(files[i].bytes) <= MAXIMUM_FILE
    && Compressed(files, i + 1) <= MAXIMUM_PAYLOAD
    && Expanded(files, i + 1) <= MAXIMUM_PAYLOAD
  }

  ghost predicate ValidFile(files: seq<Entry>, i: nat)
    requires i < |files|
  {
    ValidEntry(files[i]) && FreshName(files, i) && ValidPlace(files, i)
  }

  ghost predicate Valid(m: Manifest) {
    && ValidHeader(m)
    && var files := m.files.value;
       && (forall i :: 0 <= i < |files| ==> ValidFile(files, i))
       && m.payloadBytes.Some? && Number(m.payloadBytes) == Compressed(files, |files|)
       && m.expandedBytes.Some? && Number(m.expandedBytes) == Expanded(files, |files|)
  }

  /** One entry of the loop, against the running sums: the next sums, if it is accepted. */
  method ValidateEntry(e: Entry, names: set<string>, next: u64, expanded: u64)
    returns (error: Option<Error>, nextAfter: u64, expandedAfter: u64)
    requires next as int <= MAXIMUM_PAYLOAD && expanded as int <= MAXIMUM_PAYLOAD
    ensures error.None? <==>
              && ValidEntry(e) && Lower(e.name) !in names
              && Number(e.offset) == next as int && Number(e.compressed) > 0
              && Number(e.bytes) <= MAXIMUM_FILE
              && next as int + Number(e.compressed) <= MAXIMUM_PAYLOAD
              && expanded as int + Number(e.bytes) <= MAXIMUM_PAYLOAD
    ensures error == Some(EntryInvalid) <==> !(ValidEntry(e) && Lower(e.name) !in names)
    ensures error.Some? ==> error.value == EntryInvalid || error.value == EntryBounds
    ensures error.None? ==>
              && nextAfter as int == next as int + Number(e.compressed)
              && expandedAfter as int == expanded as int + Number(e.bytes)
  {
    nextAfter, expandedAfter := next, expanded;
    if !SafeName(e.name) || Lower(e.name) in names || !DigestText(e.sha256, 64) || e.executable.None?
       || e.bytes.None? || e.compressed.None? || e.offset.None? {
      return Some(EntryInvalid), next, expanded;
    }
    var bytes, compressed := e.bytes.value, e.compressed.value;
    if bytes > MAXIMUM_FILE || bytes > (MAXIMUM_PAYLOAD as u64 - expanded) as int || compressed == 0
       || compressed > (MAXIMUM_PAYLOAD as u64 - next) as int || e.offset.value != next as int {
      return Some(EntryBounds), next, expanded;
    }
    return None, next + compressed as u64, expanded + bytes as u64;
  }

  /** The loop accepts exactly the valid manifests. */
  method Validate(m: Manifest) returns (error: Option<Error>)
    ensures error.None? <==> Valid(m)
    ensures error == Some(ManifestInvalid) <==> !ValidHeader(m)
  {
    if !ValidHeader(m) {
      return Some(ManifestInvalid);
    }
    var files := m.files.value;
    var names: set<string>, next: u64, expanded: u64 := {}, 0, 0;
    for i := 0 to |files|
      invariant forall j :: 0 <= j < i ==> ValidFile(files, j)
      invariant names == set j | 0 <= j < i :: Lower(files[j].name)
      invariant next as int == Compressed(files, i) <= MAXIMUM_PAYLOAD
      invariant expanded as int == Expanded(files, i) <= MAXIMUM_PAYLOAD
    {
      var nextAfter, expandedAfter;
      error, nextAfter, expandedAfter := ValidateEntry(files[i], names, next, expanded);
      NamesDecideFresh(files, i, names);
      if error.Some? {
        assert !ValidFile(files, i);
        return;
      }
      names := names + {Lower(files[i].name)};
      next, expanded := nextAfter, expandedAfter;
    }
    if m.payloadBytes != Some(next as int) || m.expandedBytes != Some(expanded as int) {
      return Some(PayloadSizeMismatch);
    }
    return None;
  }

  lemma NamesDecideFresh(files: seq<Entry>, i: nat, names: set<string>)
    requires i < |files| && names == set j | 0 <= j < i :: Lower(files[j].name)
    ensures FreshName(files, i) <==> Lower(files[i].name) !in names
  {
  }

  // ---------------------------------------------------------------------------------------
  // What validity gives

  /** Byte `p` of the payload belongs to file `i`. */
  ghost predicate Owns(files: seq<Entry>, i: nat, p: nat) {
    i < |files| && Number(files[i].offset) <= p < Number(files[i].offset) + Number(files[i].compressed)
  }

  lemma {:induction false} SumsGrow(files: seq<Entry>, i: nat, j: nat)
    requires i <= j <= |files|
    ensures Compressed(files, i) <= Compressed(files, j) && Expanded(files, i) <= Expanded(files, j)
  {
    if i < j {
      SumsGrow(files, i, j - 1);
    }
  }

  lemma {:induction false} SomeFileOwns(files: seq<Entry>, n: nat, p: nat)
    requires n <= |files| && p < Compressed(files, n)
    requires forall i :: 0 <= i < n ==> ValidFile(files, i)
    ensures exists i: nat :: i < n && Owns(files, i, p)
  {
    assert ValidFile(files, n - 1);
    if p < Compressed(files, n - 1) {
      SomeFileOwns(files, n - 1, p);
    } else {
      assert Owns(files, n - 1, p);
    }
  }

  lemma OwnerIsUnique(files: seq<Entry>, i: nat, j: nat, p: nat)
    requires i < |files| && j < |files| && ValidPlace(files, i) && ValidPlace(files, j)
    requires Owns(files, i, p) && Owns(files, j, p)
    ensures i == j
  {
    if i < j {
      SumsGrow(files, i + 1, j);
    } else if j < i {
      SumsGrow(files, j + 1, i);
    }
  }

  /** The files of a valid manifest tile the payload: every byte below the payload size, and no
      other, belongs to exactly one file; no file is empty; and no sum exceeds the limit. */
  lemma Tiles(m: Manifest, p: nat)
    requires Valid(m)
    ensures var files := m.files.value;
            && (p < Number(m.payloadBytes) <==> exists i: nat :: Owns(files, i, p))
            && (forall i: nat, j: nat :: Owns(files, i, p) && Owns(files, j, p) ==> i == j)
            && (forall i: nat :: i < |files| ==> Owns(files, i, Number(files[i].offset)))
            && Number(m.payloadBytes) <= MAXIMUM_PAYLOAD
            && Number(m.expandedBytes) <= MAXIMUM_PAYLOAD
  {
    var files := m.files.value;
    assert forall i :: 0 <= i < |files| ==> ValidFile(files, i);
    assert ValidFile(files, |files| - 1);
    if p < Number(m.payloadBytes) {
      SomeFileOwns(files, |files|, p);
    }
    forall i: nat | Owns(files, i, p) ensures p < Number(m.payloadBytes) {
      assert ValidFile(files, i);
      SumsGrow(files, i + 1, |files|);
    }
    forall i: nat, j: nat | Owns(files, i, p) && Owns(files, j, p) ensures i == j {
      assert ValidFile(files, i) && ValidFile(files, j);
      OwnerIsUnique(files, i, j, p);
    }
    forall i: nat | i < |files| ensures Owns(files, i, Number(files[i].offset)) {
      assert ValidFile(files, i);
    }
  }

  /** Accepted names stay in one flat directory and remain distinct on a file system that
      ignores case. */
  lemma NamesAreFlat(m: Manifest, i: nat, j: nat)
    requires Valid(m) && i < j < |m.files.value|
    ensures var a, b := m.files.value[i].name, m.files.value[j].name;
            && Lower(a) != Lower(b) && a != b
            && '/' !in a && '\\' !in a && ':' !in a && a != "." && a != ".."
  {
    assert ValidFile(m.files.value, i) && ValidFile(m.files.value, j);
  }
}
