/**
 * What an accepted source archive contains, and packing as the inverse of
 * inspection.
 */
module ArchivePack {
  import opened Wrappers
  import opened Decimal
  import opened Text
  import opened TarWalk
  import opened Archive

  /** Where entry `i` begins. */
  function EntryOffset(entries: seq<Entry>, i: nat): nat
    requires i <= |entries|
  {
    |Render(entries[..i])|
  }

  lemma {:induction false} RenderConcat(a: seq<Entry>, b: seq<Entry>)
    ensures Render(a + b) == Render(a) + Render(b)
  {
    if a == [] {
      assert a + b == b;
    } else {
      assert (a + b)[1..] == a[1..] + b;
      RenderConcat(a[1..], b);
    }
  }

  lemma EntryInPlace(tar: Bytes, entries: seq<Entry>, end: Bytes, i: nat)
    requires i < |entries| && tar == Render(entries) + end && |entries[i].header| == BLOCK
    ensures var at := EntryOffset(entries, i);
            && at + BLOCK + |entries[i].content| <= |tar|
            && tar[at..at + BLOCK] == entries[i].header
            && tar[at + BLOCK..at + BLOCK + |entries[i].content|] == entries[i].content
  {
    var e := entries[i];
    assert entries == entries[..i] + entries[i..];
    RenderConcat(entries[..i], entries[i..]);
    assert entries[i..][1..] == entries[i + 1..];
    assert Render(entries[i..]) == e.header + e.content + Render(entries[i + 1..]);
    hide Render;
    Slices(Render(entries[..i]), e.header, e.content, Render(entries[i + 1..]), end);
  }

  lemma Slices(a: Bytes, b: Bytes, c: Bytes, d: Bytes, end: Bytes)
    ensures var all := a + (b + c + d) + end;
            && |a| + |b| + |c| <= |all|
            && all[|a|..|a| + |b|] == b
            && all[|a| + |b|..|a| + |b| + |c|] == c
  {
    var all := a + (b + c + d) + end;
    assert all == a + (b + (c + d + end));
    assert all[|a|..] == b + (c + d + end);
    assert all[|a| + |b|..] == c + d + end;
  }

  /** A name that cannot leave the directory it is put in. */
  ghost predicate SafeName(name: Bytes) {
    Normalized(name) && forall i :: 0 <= i < |name| ==> !Unprintable(name[i])
  }

  lemma AdmissibleName(e: Entry, prefix: Bytes, codec: Codec)
    requires Admissible(e, prefix, codec)
    ensures codec.path(e.header) == prefix + "/" + Name(e, prefix, codec)
    ensures SafeName(Name(e, prefix, codec))
  {
    var path, name := codec.path(e.header), Name(e, prefix, codec);
    assert path == prefix + "/" + name;
    SplitAtSeparator(prefix, name, '/');
    var parts := Split(name, '/');
    forall i | 0 <= i < |parts| ensures parts[i] !in {"", ".", ".."} {
      assert Split(path, '/')[|Split(prefix, '/')| + i] == parts[i];
    }
    forall i | 0 <= i < |name| ensures !Unprintable(name[i]) {
      assert path[|prefix| + 1 + i] == name[i];
    }
  }

  /** `name` is spelled in the header at `at` in exactly one way, and `file` is the header and the body found there. */
  ghost predicate Holds(tar: Bytes, at: nat, size: nat, path: Bytes, file: File) {
    && at + BLOCK + size <= |tar|
    && file == File(tar[at..at + BLOCK], tar[at + BLOCK..at + BLOCK + size])
    && |path| <= NAME_BYTES
    && file.header[..NAME_BYTES] == path + Nuls(NAME_BYTES - |path|)
  }

  lemma AcceptedEntry(tar: Bytes, prefix: Bytes, codec: Codec, entries: seq<Entry>, end: Bytes, i: nat)
    requires Splits(tar, entries, end, codec.size) && i < |entries| && Admissible(entries[i], prefix, codec)
    ensures SafeName(Name(entries[i], prefix, codec))
    ensures Holds(tar, EntryOffset(entries, i), SizeOf(entries[i], codec),
                  prefix + "/" + Name(entries[i], prefix, codec), FileOf(entries[i], codec))
  {
    var e := entries[i];
    assert WellFormed(e, codec.size) && Admissible(e, prefix, codec);
    EntryInPlace(tar, entries, end, i);
    AdmissibleName(e, prefix, codec);
    RawPathIsPadded(e.header, codec.path(e.header));
    hide *;
    HoldsAt(tar, EntryOffset(entries, i), e, codec, prefix + "/" + Name(e, prefix, codec));
  }

  lemma HoldsAt(tar: Bytes, at: nat, e: Entry, codec: Codec, path: Bytes)
    requires WellFormed(e, codec.size) && at + BLOCK + |e.content| <= |tar|
    requires tar[at..at + BLOCK] == e.header && tar[at + BLOCK..at + BLOCK + |e.content|] == e.content
    requires |path| <= NAME_BYTES && e.header[..NAME_BYTES] == path + Nuls(NAME_BYTES - |path|)
    ensures Holds(tar, at, SizeOf(e, codec), path, FileOf(e, codec))
  {
    hide Zeros;
    TakeOfSlice(tar, at + BLOCK, |e.content|, SizeOf(e, codec));
  }

  /**
   * An accepted archive yields one file for each physical entry, under a safe
   * name below the root that the header spells in exactly one way, with a body
   * that is exactly its range of bytes, within both limits.
   */
  lemma AcceptedArchive(tar: Bytes, prefix: Bytes, codec: Codec, entries: seq<Entry>, end: Bytes)
    requires Acceptable(tar, prefix, codec) && Splits(tar, entries, end, codec.size)
    ensures 0 < |FilesOf(entries, prefix, codec)| == |entries| <= MAX_CRATE_FILES
    ensures Total(entries, codec) <= MAX_CRATE_UNPACKED_BYTES
    ensures codec.vcs(FilesOf(entries, prefix, codec))
    ensures forall i :: 0 <= i < |entries| ==>
              var header := entries[i].header;
              codec.checksum(header) && codec.metadata(header) && codec.utf8(codec.path(header))
    ensures forall i :: 0 <= i < |entries| ==>
              var name := Name(entries[i], prefix, codec);
              && SafeName(name) && name in FilesOf(entries, prefix, codec)
              && Holds(tar, EntryOffset(entries, i), SizeOf(entries[i], codec), prefix + "/" + name,
                       FilesOf(entries, prefix, codec)[name])
  {
    WalkIsComplete(tar, entries, end, codec.size);
    FileCount(entries, prefix, codec);
    assert forall i :: 0 <= i < |entries| ==> Admissible(entries[i], prefix, codec);
    hide Holds, FileOf, Name, SafeName, EntryOffset, SizeOf, Total, Admissible, Splits, FilesOf;
    forall i | 0 <= i < |entries|
      ensures SafeName(Name(entries[i], prefix, codec))
      ensures Holds(tar, EntryOffset(entries, i), SizeOf(entries[i], codec),
                    prefix + "/" + Name(entries[i], prefix, codec), FileOf(entries[i], codec))
      ensures Name(entries[i], prefix, codec) in FilesOf(entries, prefix, codec)
      ensures FilesOf(entries, prefix, codec)[Name(entries[i], prefix, codec)] == FileOf(entries[i], codec)
    {
      AcceptedEntry(tar, prefix, codec, entries, end, i);
      FileByName(entries, i, prefix, codec);
    }
  }

  type Encode = (Bytes, nat) -> Bytes

  /** A header this encoder writes is one the codec reads back, for every path and size an archive may hold. */
  ghost predicate Faithful(codec: Codec, encode: Encode) {
    forall path: Bytes, size: nat :: 0 < |path| <= NAME_BYTES && '\0' !in path && size <= MAX_CRATE_UNPACKED_BYTES ==>
      var header := encode(path, size);
      && |header| == BLOCK && header[..NAME_BYTES] == path + Nuls(NAME_BYTES - |path|)
      && codec.size(header) == Some(size) && codec.path(header) == path
      && codec.checksum(header) && codec.metadata(header)
  }

  function PackEntry(prefix: Bytes, name: Bytes, body: Bytes, encode: Encode): Entry {
    Entry(encode(prefix + "/" + name, |body|), body + Nuls(Padded(|body|) - |body|))
  }

  function PackEntries(prefix: Bytes, order: seq<Bytes>, files: map<Bytes, Bytes>, encode: Encode): seq<Entry>
    requires forall n :: n in order ==> n in files
  {
    seq(|order|, i requires 0 <= i < |order| => PackEntry(prefix, order[i], files[order[i]], encode))
  }

  /** The files in this order, then the two zero blocks. */
  function Pack(prefix: Bytes, order: seq<Bytes>, files: map<Bytes, Bytes>, encode: Encode): Bytes
    requires forall n :: n in order ==> n in files
  {
    Render(PackEntries(prefix, order, files, encode)) + Nuls(2 * BLOCK)
  }

  function Weight(order: seq<Bytes>, files: map<Bytes, Bytes>): nat
    requires forall n :: n in order ==> n in files
  {
    if order == [] then 0 else Weight(order[..|order| - 1], files) + |files[order[|order| - 1]]|
  }

  /** A nonempty set of files that an archive may hold, listed once each. */
  ghost predicate Packable(prefix: Bytes, order: seq<Bytes>, files: map<Bytes, Bytes>, codec: Codec) {
    && 0 < |order| <= MAX_CRATE_FILES
    && (forall n :: n in order <==> n in files)
    && (forall i, j :: 0 <= i < j < |order| ==> order[i] != order[j])
    && Weight(order, files) <= MAX_CRATE_UNPACKED_BYTES
    && forall n :: n in files ==> FitsHeader(prefix + "/" + n, prefix, codec)
  }

  ghost predicate FitsHeader(path: Bytes, prefix: Bytes, codec: Codec) {
    |path| <= NAME_BYTES && codec.utf8(path) && ValidateArchivePath(path, prefix)
  }

  function PackedFiles(prefix: Bytes, files: map<Bytes, Bytes>, encode: Encode): map<Bytes, File> {
    map n | n in files :: File(encode(prefix + "/" + n, |files[n]|), files[n])
  }

  lemma PackedEntry(prefix: Bytes, name: Bytes, body: Bytes, codec: Codec, encode: Encode)
    requires Faithful(codec, encode) && FitsHeader(prefix + "/" + name, prefix, codec)
    requires |body| <= MAX_CRATE_UNPACKED_BYTES
    ensures var e := PackEntry(prefix, name, body, encode);
            && WellFormed(e, codec.size) && Admissible(e, prefix, codec)
            && Name(e, prefix, codec) == name && SizeOf(e, codec) == |body|
            && FileOf(e, codec) == File(encode(prefix + "/" + name, |body|), body)
  {
    var path, e := prefix + "/" + name, PackEntry(prefix, name, body, encode);
    assert '\0' !in path by {
      assert forall i :: 0 <= i < |path| ==> !Unprintable(path[i]);
    }
    var field := path + Nuls(NAME_BYTES - |path|);
    assert e.header[..NAME_BYTES] == field;
    assert e.header[0] == field[0] == path[0] != '\0';
    RawPathIsPadded(e.header, path);
  }

  lemma {:induction false} WeightBounds(order: seq<Bytes>, files: map<Bytes, Bytes>, i: nat)
    requires (forall n :: n in order ==> n in files) && i < |order|
    ensures |files[order[i]]| <= Weight(order, files)
  {
    if i < |order| - 1 {
      assert order[..|order| - 1][i] == order[i];
      WeightBounds(order[..|order| - 1], files, i);
    }
  }

  lemma {:induction false} TotalIsWeight(
    prefix: Bytes, order: seq<Bytes>, files: map<Bytes, Bytes>, codec: Codec, encode: Encode)
    requires forall n :: n in order ==> n in files
    requires forall i :: 0 <= i < |order| ==>
               SizeOf(PackEntry(prefix, order[i], files[order[i]], encode), codec) == |files[order[i]]|
    ensures Total(PackEntries(prefix, order, files, encode), codec) == Weight(order, files)
  {
    hide PackEntry, SizeOf;
    var entries := PackEntries(prefix, order, files, encode);
    if order != [] {
      var k := |order| - 1;
      assert forall i :: 0 <= i < k ==> order[..k][i] == order[i];
      TotalIsWeight(prefix, order[..k], files, codec, encode);
      assert entries[..k] == PackEntries(prefix, order[..k], files, encode);
      assert entries[k] == PackEntry(prefix, order[k], files[order[k]], encode);
    }
  }

  /** The width of the octal size field, which holds more than an archive may. */
  const OCTAL_DIGITS: nat := 11

  function Octal(n: nat, digits: nat): (s: Bytes)
    ensures |s| == digits
  {
    if digits == 0 then "" else Octal(n / 8, digits - 1) + [DigitChar(n % 8)]
  }

  function OctalValue(s: Bytes): (n: Option<nat>) {
    if s == "" then Some(0)
    else
      var high := OctalValue(s[..|s| - 1]);
      var c := s[|s| - 1];
      if high.None? || !IsDigit(c) || DigitValue(c) > 7 then None else Some(8 * high.value + DigitValue(c))
  }

  function Power8(k: nat): nat { if k == 0 then 1 else 8 * Power8(k - 1) }

  lemma {:induction false} OctalReadsBack(n: nat, digits: nat)
    requires n < Power8(digits)
    ensures OctalValue(Octal(n, digits)) == Some(n)
  {
    if digits > 0 {
      assert n / 8 < Power8(digits - 1);
      OctalReadsBack(n / 8, digits - 1);
      hide DigitChar, DigitValue, Power8;
      var s := Octal(n, digits);
      assert s[..|s| - 1] == Octal(n / 8, digits - 1);
    }
  }

  /** A header with the name and the octal size where the format puts them, and NULs elsewhere. */
  function PlainHeader(path: Bytes, size: nat): Bytes
  {
    var name := if |path| <= NAME_BYTES then path + Nuls(NAME_BYTES - |path|) else path[..NAME_BYTES];
    name + Nuls(24) + (Octal(size, OCTAL_DIGITS) + Nuls(BLOCK - NAME_BYTES - 24 - OCTAL_DIGITS))
  }

  function PlainSize(header: Bytes): Option<u64> {
    if |header| != BLOCK then None
    else
      var n := OctalValue(header[NAME_BYTES + 24..NAME_BYTES + 24 + OCTAL_DIGITS]);
      if n.Some? && n.value <= U64_MAX then Some(n.value as u64) else None
  }

  function PlainPath(header: Bytes): Bytes {
    if |header| < NAME_BYTES then "" else header[..NameLength(header[..NAME_BYTES])]
  }

  function PlainCodec(): Codec {
    Codec(PlainSize, (header: Bytes) => true, PlainPath, (path: Bytes) => true,
          (header: Bytes) => true, (files: map<Bytes, File>) => true)
  }

  /** Faithful encoders exist. */
  lemma PlainIsFaithful()
    ensures Faithful(PlainCodec(), PlainHeader)
  {
    forall path: Bytes, size: nat | 0 < |path| <= NAME_BYTES && '\0' !in path && size <= MAX_CRATE_UNPACKED_BYTES
      ensures var header := PlainHeader(path, size);
              && |header| == BLOCK && header[..NAME_BYTES] == path + Nuls(NAME_BYTES - |path|)
              && PlainSize(header) == Some(size as u64) && PlainPath(header) == path
    {
      PlainRoundTrip(path, size);
    }
  }

  lemma PlainRoundTrip(path: Bytes, size: nat)
    requires 0 < |path| <= NAME_BYTES && '\0' !in path && size <= MAX_CRATE_UNPACKED_BYTES
    ensures var header := PlainHeader(path, size);
            && |header| == BLOCK && header[..NAME_BYTES] == path + Nuls(NAME_BYTES - |path|)
            && PlainSize(header) == Some(size as u64) && PlainPath(header) == path
  {
    var header, name, digits := PlainHeader(path, size), path + Nuls(NAME_BYTES - |path|), Octal(size, OCTAL_DIGITS);
    assert Power8(OCTAL_DIGITS) > MAX_CRATE_UNPACKED_BYTES by {
      assert Power8(2) == 64;
      assert Power8(4) == 4096;
      assert Power8(6) == 262144;
      assert Power8(8) == 16777216;
      assert Power8(10) == 1073741824;
    }
    OctalReadsBack(size, OCTAL_DIGITS);
    assert header[..NAME_BYTES] == name;
    assert header[NAME_BYTES + 24..NAME_BYTES + 24 + OCTAL_DIGITS] == digits;
    RawPathIsPadded(header, path);
    assert header[..|path|] == path;
    assert NameLength(name) == |path| by {
      assert forall i :: 0 <= i < |path| ==> name[i] == path[i] && path[i] in path;
      assert |path| < NAME_BYTES ==> name[|path|] == '\0';
    }
  }

  /** Packed entries are well formed, admissible, distinct, and carry the files. */
  lemma PackedEntries(prefix: Bytes, order: seq<Bytes>, files: map<Bytes, Bytes>, codec: Codec, encode: Encode)
    requires Faithful(codec, encode) && Packable(prefix, order, files, codec)
    ensures var entries := PackEntries(prefix, order, files, encode);
            && Clean(entries, prefix, codec)
            && forall i :: 0 <= i < |order| ==>
                 && WellFormed(entries[i], codec.size) && Name(entries[i], prefix, codec) == order[i]
                 && FileOf(entries[i], codec)
                    == File(encode(prefix + "/" + order[i], |files[order[i]]|), files[order[i]])
  {
    hide Name, Admissible, WellFormed, SizeOf, FileOf, Total, Weight, PackEntry, Faithful, FitsHeader;
    var entries := PackEntries(prefix, order, files, encode);
    forall i | 0 <= i < |order|
      ensures WellFormed(entries[i], codec.size) && Admissible(entries[i], prefix, codec)
      ensures Name(entries[i], prefix, codec) == order[i]
      ensures SizeOf(PackEntry(prefix, order[i], files[order[i]], encode), codec) == |files[order[i]]|
      ensures FileOf(entries[i], codec) == File(encode(prefix + "/" + order[i], |files[order[i]]|), files[order[i]])
    {
      WeightBounds(order, files, i);
      PackedEntry(prefix, order[i], files[order[i]], codec, encode);
    }
    TotalIsWeight(prefix, order, files, codec, encode);
  }

  /** Packing any files an archive may hold, in any order, and inspecting the result returns those files. */
  lemma PackThenInspect(prefix: Bytes, order: seq<Bytes>, files: map<Bytes, Bytes>, codec: Codec, encode: Encode)
    requires Faithful(codec, encode) && Packable(prefix, order, files, codec)
    requires codec.vcs(PackedFiles(prefix, files, encode))
    ensures var tar := Pack(prefix, order, files, encode);
            && Acceptable(tar, prefix, codec)
            && FilesOf(Walk(tar, codec.size).value, prefix, codec) == PackedFiles(prefix, files, encode)
  {
    hide Name, WellFormed, FileOf, Total, Weight, FilesOf, Faithful, FitsHeader, Render, Admissible, Walk, Padded;
    var entries := PackEntries(prefix, order, files, encode);
    PackedEntries(prefix, order, files, codec, encode);
    WalkIsComplete(Pack(prefix, order, files, encode), entries, Nuls(2 * BLOCK), codec.size);
    FilesAsListed(entries, prefix, codec, order, PackedFiles(prefix, files, encode));
  }

  /** Entries that carry these files under these names collect to this map. */
  lemma FilesAsListed(entries: seq<Entry>, prefix: Bytes, codec: Codec, order: seq<Bytes>, files: map<Bytes, File>)
    requires |entries| == |order| && Distinct(entries, prefix, codec) && (forall n :: n in order <==> n in files)
    requires forall i :: 0 <= i < |order| ==> Name(entries[i], prefix, codec) == order[i]
    requires forall i :: 0 <= i < |order| ==> FileOf(entries[i], codec) == files[order[i]]
    ensures FilesOf(entries, prefix, codec) == files
  {
    hide Name, FileOf, FilesOf;
    FileKeys(entries, prefix, codec);
    var found := FilesOf(entries, prefix, codec);
    forall n | n in files ensures n in found && found[n] == files[n] {
      var i :| 0 <= i < |order| && order[i] == n;
      FileByName(entries, i, prefix, codec);
    }
    forall n | n in found ensures n in files {
      var i :| 0 <= i < |entries| && Name(entries[i], prefix, codec) == n;
      assert order[i] == n;
    }
    assert found == files;
  }
}
