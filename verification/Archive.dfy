/**
 * Inspection of a source archive (xtask/src/crate_archive.rs): the walk over
 * its entries that collects the files, and the path checks. The tar reader is
 * modelled as the walk of `TarWalk`; header fields are read by a codec.
 */
module Archive {
  import opened Wrappers
  import opened Text
  import opened TarWalk

  const MAX_CRATE_FILES: nat := 10_000
  const MAX_CRATE_UNPACKED_BYTES: nat := 128 * 1024 * 1024
  const NAME_BYTES: nat := 100

  /** A file as kept: the header stands for the metadata read from it. */
  datatype File = File(header: Bytes, body: Bytes)

  /** The decoding of a header block, and the policy checks that are not modelled further. */
  datatype Codec = Codec(
    size: SizeField,
    checksum: Bytes -> bool,
    path: Bytes -> Bytes,
    utf8: Bytes -> bool,
    metadata: Bytes -> bool,
    vcs: map<Bytes, File> -> bool)

  function Nuls(n: nat): (s: Bytes)
    ensures |s| == n && Zeros(s)
  {
    seq(n, _ => '\0')
  }

  /** The position of the first NUL, or the length. */
  function NameLength(name: Bytes): (n: nat)
    ensures n <= |name|
    ensures forall i :: 0 <= i < n ==> name[i] != '\0'
    ensures n < |name| ==> name[n] == '\0'
  {
    if name == "" || name[0] == '\0' then 0 else 1 + NameLength(name[1..])
  }

  /** `validate_raw_header_path`. */
  predicate ValidateRawHeaderPath(header: Bytes, path: Bytes)
    requires |header| == BLOCK
  {
    var name := header[..NAME_BYTES];
    name[..NameLength(name)] == path && Zeros(name[NameLength(name)..])
  }

  /** The raw name must be the path and then NULs to the end of the field, in no other spelling. */
  lemma RawPathIsPadded(header: Bytes, path: Bytes)
    requires |header| == BLOCK
    ensures ValidateRawHeaderPath(header, path) <==>
              && |path| <= NAME_BYTES && '\0' !in path
              && header[..NAME_BYTES] == path + Nuls(NAME_BYTES - |path|)
  {
    var name := header[..NAME_BYTES];
    var n := NameLength(name);
    assert name == name[..n] + name[n..];
    if Zeros(name[n..]) {
      assert name[n..] == Nuls(NAME_BYTES - n);
    }
    if |path| <= NAME_BYTES && '\0' !in path && name == path + Nuls(NAME_BYTES - |path|) {
      assert forall i :: |path| <= i < NAME_BYTES ==> name[i] == '\0';
      assert forall i :: 0 <= i < |path| ==> name[i] == path[i] && path[i] in path;
      assert |path| < NAME_BYTES ==> name[|path|] == '\0';
      assert name[..n] == path;
    }
  }

  predicate Unprintable(c: char) { c in {'\0', '\r', '\n', '\\'} }

  /** `validate_archive_path`. */
  predicate ValidateArchivePath(path: Bytes, prefix: Bytes) {
    && path != ""
    && path[0] != '/'
    && (forall i :: 0 <= i < |path| ==> !Unprintable(path[i]))
    && Normalized(path)
    && (path == prefix || StartsWith(path, prefix + "/"))
  }

  /** The paths that pass: normalized and printable, and the root itself or something below it. */
  lemma ArchivePathIff(path: Bytes, prefix: Bytes)
    ensures ValidateArchivePath(path, prefix) <==>
              && Normalized(path)
              && '\0' !in path && '\r' !in path && '\n' !in path && '\\' !in path
              && (path == prefix || exists name :: path == prefix + "/" + name)
  {
    if Normalized(path) {
      NormalizedEnds(path);
    }
    if StartsWith(path, prefix + "/") {
      assert path == prefix + "/" + path[|prefix| + 1..];
    }
    assert forall name :: path == prefix + "/" + name ==> StartsWith(path, prefix + "/");
    assert forall c :: c in path <==> exists i :: 0 <= i < |path| && path[i] == c;
    hide Normalized;
  }

  function SizeOf(e: Entry, codec: Codec): nat {
    var field := codec.size(e.header);
    if field.Some? then field.value else 0
  }

  function Total(entries: seq<Entry>, codec: Codec): nat {
    if entries == [] then 0
    else Total(entries[..|entries| - 1], codec) + SizeOf(entries[|entries| - 1], codec)
  }

  /** The entry passes every check that looks at it alone. */
  ghost predicate Admissible(e: Entry, prefix: Bytes, codec: Codec) {
    var path := codec.path(e.header);
    && |e.header| == BLOCK && codec.checksum(e.header) && codec.utf8(path)
    && ValidateRawHeaderPath(e.header, path) && ValidateArchivePath(path, prefix)
    && codec.metadata(e.header) && StartsWith(path, prefix + "/")
  }

  /** The path below the root. */
  function Name(e: Entry, prefix: Bytes, codec: Codec): Bytes {
    var path := codec.path(e.header);
    if |path| > |prefix| then path[|prefix| + 1..] else ""
  }

  function FileOf(e: Entry, codec: Codec): File {
    File(e.header, if SizeOf(e, codec) <= |e.content| then e.content[..SizeOf(e, codec)] else e.content)
  }

  function FilesOf(entries: seq<Entry>, prefix: Bytes, codec: Codec): map<Bytes, File> {
    if entries == [] then map[]
    else
      var last := entries[|entries| - 1];
      FilesOf(entries[..|entries| - 1], prefix, codec)[Name(last, prefix, codec) := FileOf(last, codec)]
  }

  ghost predicate Distinct(entries: seq<Entry>, prefix: Bytes, codec: Codec) {
    forall i, j :: 0 <= i < j < |entries| ==> Name(entries[i], prefix, codec) != Name(entries[j], prefix, codec)
  }

  ghost predicate Clean(entries: seq<Entry>, prefix: Bytes, codec: Codec) {
    && |entries| <= MAX_CRATE_FILES
    && Total(entries, codec) <= MAX_CRATE_UNPACKED_BYTES
    && (forall i :: 0 <= i < |entries| ==> Admissible(entries[i], prefix, codec))
    && Distinct(entries, prefix, codec)
  }

  /** The exact acceptance condition of the inspection. */
  ghost predicate Acceptable(tar: Bytes, prefix: Bytes, codec: Codec) {
    var walk := Walk(tar, codec.size);
    walk.Some? && walk.value != [] && Clean(walk.value, prefix, codec) && codec.vcs(FilesOf(walk.value, prefix, codec))
  }

  /** The keys are the names. */
  lemma {:induction false} FileKeys(entries: seq<Entry>, prefix: Bytes, codec: Codec)
    ensures forall n :: n in FilesOf(entries, prefix, codec) <==>
              exists i :: 0 <= i < |entries| && Name(entries[i], prefix, codec) == n
  {
    hide Name, FileOf;
    if entries != [] {
      var before, last := entries[..|entries| - 1], entries[|entries| - 1];
      FileKeys(before, prefix, codec);
      forall n | n in FilesOf(entries, prefix, codec)
        ensures exists i :: 0 <= i < |entries| && Name(entries[i], prefix, codec) == n
      {
        if n in FilesOf(before, prefix, codec) {
          var i :| 0 <= i < |before| && Name(before[i], prefix, codec) == n;
          assert entries[i] == before[i];
        }
      }
      forall i | 0 <= i < |entries| ensures Name(entries[i], prefix, codec) in FilesOf(entries, prefix, codec) {
        assert i < |before| ==> entries[i] == before[i];
      }
    }
  }

  /** With distinct names there is one file for each entry ... */
  lemma {:induction false} FileCount(entries: seq<Entry>, prefix: Bytes, codec: Codec)
    requires Distinct(entries, prefix, codec)
    ensures |FilesOf(entries, prefix, codec)| == |entries|
  {
    hide Name, FileOf;
    if entries != [] {
      var before, last := entries[..|entries| - 1], Name(entries[|entries| - 1], prefix, codec);
      FileCount(before, prefix, codec);
      FileKeys(before, prefix, codec);
      var files := FilesOf(before, prefix, codec);
      assert last !in files;
      assert FilesOf(entries, prefix, codec).Keys == files.Keys + {last};
    }
  }

  /** ... and it is that entry's. */
  lemma {:induction false} FileByName(entries: seq<Entry>, i: nat, prefix: Bytes, codec: Codec)
    requires Distinct(entries, prefix, codec) && i < |entries|
    ensures Name(entries[i], prefix, codec) in FilesOf(entries, prefix, codec)
    ensures FilesOf(entries, prefix, codec)[Name(entries[i], prefix, codec)] == FileOf(entries[i], codec)
  {
    hide Name, FileOf;
    if i < |entries| - 1 {
      FileByName(entries[..|entries| - 1], i, prefix, codec);
      assert Name(entries[i], prefix, codec) != Name(entries[|entries| - 1], prefix, codec);
    }
  }

  lemma {:induction false} TotalGrows(entries: seq<Entry>, i: nat, codec: Codec)
    requires i <= |entries|
    ensures Total(entries[..i], codec) <= Total(entries, codec)
  {
    if i < |entries| {
      TotalGrows(entries[..|entries| - 1], i, codec);
      assert entries[..|entries| - 1][..i] == entries[..i];
    } else {
      assert entries[..i] == entries;
    }
  }

  /** One more entry keeps the collected prefix clean exactly when it passes its own checks. */
  lemma CleanStep(entries: seq<Entry>, i: nat, prefix: Bytes, codec: Codec)
    requires i < |entries| && Clean(entries[..i], prefix, codec)
    ensures Clean(entries[..i + 1], prefix, codec) <==>
              && i < MAX_CRATE_FILES
              && Total(entries[..i], codec) + SizeOf(entries[i], codec) <= MAX_CRATE_UNPACKED_BYTES
              && Admissible(entries[i], prefix, codec)
              && Name(entries[i], prefix, codec) !in FilesOf(entries[..i], prefix, codec)
    ensures Total(entries[..i + 1], codec) == Total(entries[..i], codec) + SizeOf(entries[i], codec)
    ensures FilesOf(entries[..i + 1], prefix, codec) ==
              FilesOf(entries[..i], prefix, codec)[Name(entries[i], prefix, codec) := FileOf(entries[i], codec)]
  {
    hide Name, FileOf, Admissible, SizeOf;
    var before, after := entries[..i], entries[..i + 1];
    assert after[..i] == before && after[i] == entries[i];
    FileKeys(before, prefix, codec);
    assert forall j :: 0 <= j < i ==> after[j] == before[j];
  }

  lemma CleanPrefix(entries: seq<Entry>, i: nat, prefix: Bytes, codec: Codec)
    requires i <= |entries| && Clean(entries, prefix, codec)
    ensures Clean(entries[..i], prefix, codec)
  {
    hide Name, FileOf, Admissible, SizeOf;
    TotalGrows(entries, i, codec);
  }

  /** The loop of `inspect_archive_entries_with_limit` over a decompressed archive. */
  method Inspect(tar: Bytes, prefix: Bytes, codec: Codec) returns (result: Result<map<Bytes, File>>)
    requires |tar| <= TarWalk.USIZE_MAX
    ensures result.Ok? <==> Acceptable(tar, prefix, codec)
    ensures result.Ok? ==> result.value == FilesOf(Walk(tar, codec.size).value, prefix, codec)
  {
    hide Walk, Clean, FilesOf, FileOf, SizeOf, Total, Zeros, Padded, ValidateArchivePath, ValidateRawHeaderPath;
    var terminated := ValidateTarTermination(tar, codec.size);
    if !terminated {
      return Err;
    }
    ghost var entries := Walk(tar, codec.size).value;
    ghost var i := 0;
    var files: map<Bytes, File> := map[];
    var count, total, offset := 0, 0, 0;
    Start(tar, entries, prefix, codec);
    while true
      invariant i <= |entries| && count == i
      invariant offset + BLOCK <= |tar| && Walk(tar[offset..], codec.size) == Some(entries[i..])
      invariant Clean(entries[..i], prefix, codec)
      invariant total == Total(entries[..i], codec) <= MAX_CRATE_UNPACKED_BYTES
      invariant files == FilesOf(entries[..i], prefix, codec)
      decreases |tar| - offset
    {
      var header := tar[offset..offset + BLOCK];
      var zero := AllZero(header);
      if zero {
        WalkAtEnd(tar, offset, codec.size);
        assert i == |entries| && entries[..i] == entries;
        break;
      }
      Advance(tar, offset, entries, i, codec);
      CleanStep(entries, i, prefix, codec);
      if Acceptable(tar, prefix, codec) {
        CleanPrefix(entries, i + 1, prefix, codec);
      }
      if !codec.checksum(header) {
        return Err;
      }
      count := count + 1;
      if count > MAX_CRATE_FILES {
        return Err;
      }
      var size := codec.size(header).value;
      var sum := CheckedAdd(total, size);
      if sum.None? || sum.value > MAX_CRATE_UNPACKED_BYTES {
        return Err;
      }
      total := sum.value;
      var path := codec.path(header);
      if !codec.utf8(path) || !ValidateRawHeaderPath(header, path) || !ValidateArchivePath(path, prefix) {
        return Err;
      }
      if !codec.metadata(header) || !StartsWith(path, prefix + "/") {
        return Err;
      }
      var relative := path[|prefix| + 1..];
      var body := tar[offset + BLOCK..offset + BLOCK + size];
      if relative in files {
        return Err;
      }
      files := files[relative := File(header, body)];
      offset := offset + BLOCK + Padded(size);
      i := i + 1;
    }
    if count == 0 || !codec.vcs(files) {
      return Err;
    }
    result := Ok(files);
  }

  lemma Start(tar: Bytes, entries: seq<Entry>, prefix: Bytes, codec: Codec)
    requires Walk(tar, codec.size) == Some(entries)
    ensures Walk(tar[0..], codec.size) == Some(entries[0..]) && BLOCK <= |tar|
    ensures Clean(entries[..0], prefix, codec)
    ensures Total(entries[..0], codec) == 0 && FilesOf(entries[..0], prefix, codec) == map[]
  {
    assert tar[0..] == tar && entries[0..] == entries;
  }

  lemma HeadOfRest(entries: seq<Entry>, i: nat, e: Entry, rest: seq<Entry>)
    requires i <= |entries| && entries[i..] == [e] + rest
    ensures i < |entries| && entries[i] == e && entries[i + 1..] == rest
  {
    assert |entries[i..]| == 1 + |rest|;
    assert entries[i] == entries[i..][0];
    assert entries[i + 1..] == entries[i..][1..];
  }

  /** The reader's next entry is the walk's next entry. */
  lemma Advance(tar: Bytes, offset: nat, entries: seq<Entry>, i: nat, codec: Codec)
    requires offset + BLOCK <= |tar| && i <= |entries| && !Zeros(tar[offset..offset + BLOCK])
    requires Walk(tar[offset..], codec.size) == Some(entries[i..])
    ensures i < |entries| && codec.size(tar[offset..offset + BLOCK]).Some?
    ensures var next := offset + BLOCK + Padded(codec.size(tar[offset..offset + BLOCK]).value);
            && next + BLOCK <= |tar|
            && entries[i].header == tar[offset..offset + BLOCK]
            && SizeOf(entries[i], codec) == codec.size(tar[offset..offset + BLOCK]).value
            && FileOf(entries[i], codec) ==
                 File(entries[i].header, tar[offset + BLOCK..offset + BLOCK + SizeOf(entries[i], codec)])
            && Walk(tar[next..], codec.size) == Some(entries[i + 1..])
  {
    WalkAtEntry(tar, offset, codec.size);
    hide Walk, Zeros, FileOf, Padded;
    var next := offset + BLOCK + Padded(codec.size(tar[offset..offset + BLOCK]).value);
    var rest := Walk(tar[next..], codec.size);
    WalkNeedsBlock(tar[next..], codec.size);
    var e := Entry(tar[offset..offset + BLOCK], tar[offset + BLOCK..next]);
    HeadOfRest(entries, i, e, rest.value);
    FileInPlace(tar, offset, next, entries[i], codec);
  }

  lemma FileInPlace(tar: Bytes, offset: nat, next: nat, e: Entry, codec: Codec)
    requires offset + BLOCK <= next <= |tar| && SizeOf(e, codec) <= next - offset - BLOCK
    requires e == Entry(tar[offset..offset + BLOCK], tar[offset + BLOCK..next])
    ensures FileOf(e, codec) == File(e.header, tar[offset + BLOCK..offset + BLOCK + SizeOf(e, codec)])
  {
    hide SizeOf;
    TakeOfSlice(tar, offset + BLOCK, next - offset - BLOCK, SizeOf(e, codec));
  }
}
