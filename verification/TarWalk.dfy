/**
 * The walk over the physical records of a tar file
 * (xtask/src/crate_archive.rs, `validate_tar_termination`), after the ustar
 * Interchange Format of the pax utility in IEEE Std 1003.1. A byte string is a
 * `string` with one character per byte; the size field is read by a parameter.
 */
module TarWalk {
  import opened Wrappers
  import opened Decimal

  const BLOCK: nat := 512
  const USIZE_MAX: nat := U64_MAX

  type Bytes = string
  type SizeField = Bytes -> Option<u64>

  /** A physical entry: its header block and its content, padded to whole blocks. */
  datatype Entry = Entry(header: Bytes, content: Bytes)

  predicate Zeros(bytes: Bytes) { forall i :: 0 <= i < |bytes| ==> bytes[i] == '\0' }

  function CheckedAdd(a: u64, b: u64): (r: Option<u64>)
    ensures r.Some? <==> a + b <= U64_MAX
    ensures r.Some? ==> r.value == a + b
  {
    if a + b <= U64_MAX then Some(a + b) else None
  }

  /** The length of `size` bytes in whole blocks. */
  function Padded(size: nat): (n: nat)
    ensures size <= n < size + BLOCK && n % BLOCK == 0
  {
    (size + BLOCK - 1) / BLOCK * BLOCK
  }

  ghost predicate WellFormed(e: Entry, size: SizeField) {
    && |e.header| == BLOCK && !Zeros(e.header)
    && size(e.header).Some? && |e.content| == Padded(size(e.header).value)
  }

  ghost predicate Terminator(bytes: Bytes) {
    |bytes| >= 2 * BLOCK && |bytes| % BLOCK == 0 && Zeros(bytes)
  }

  function Render(entries: seq<Entry>): Bytes {
    if entries == [] then "" else entries[0].header + entries[0].content + Render(entries[1..])
  }

  /** `tar` is these entries followed by this terminator and nothing else. */
  ghost predicate Splits(tar: Bytes, entries: seq<Entry>, end: Bytes, size: SizeField) {
    && (forall i :: 0 <= i < |entries| ==> WellFormed(entries[i], size))
    && Terminator(end)
    && tar == Render(entries) + end
  }

  /** The entries the walk meets from the start of `tar`, or nothing when it must refuse. */
  ghost function Walk(tar: Bytes, size: SizeField): Option<seq<Entry>>
    decreases |tar|
  {
    if |tar| < BLOCK then None
    else if Zeros(tar[..BLOCK]) then if Terminator(tar) then Some([]) else None
    else
      var field := size(tar[..BLOCK]);
      if field.None? || BLOCK + Padded(field.value) > |tar| then None
      else
        var next := BLOCK + Padded(field.value);
        var rest := Walk(tar[next..], size);
        if rest.None? then None
        else Some([Entry(tar[..BLOCK], tar[BLOCK..next])] + rest.value)
  }

  lemma WalkNeedsBlock(tar: Bytes, size: SizeField)
    ensures Walk(tar, size).Some? ==> |tar| >= BLOCK
  {}

  /** The walk at a zero block. */
  lemma WalkAtEnd(tar: Bytes, offset: nat, size: SizeField)
    requires offset + BLOCK <= |tar| && Zeros(tar[offset..offset + BLOCK])
    ensures Walk(tar[offset..], size) == if Terminator(tar[offset..]) then Some([]) else None
  {
    assert tar[offset..][..BLOCK] == tar[offset..offset + BLOCK];
  }

  /** The walk at an entry: refused, or continued behind it. */
  lemma WalkAtEntry(tar: Bytes, offset: nat, size: SizeField)
    requires offset + BLOCK <= |tar| && !Zeros(tar[offset..offset + BLOCK])
    ensures var field := size(tar[offset..offset + BLOCK]);
            if field.None? || offset + BLOCK + Padded(field.value) > |tar| then Walk(tar[offset..], size) == None
            else
              var next := offset + BLOCK + Padded(field.value);
              var rest := Walk(tar[next..], size);
              Walk(tar[offset..], size) ==
                if rest.None? then None
                else Some([Entry(tar[offset..offset + BLOCK], tar[offset + BLOCK..next])] + rest.value)
  {
    var header := tar[offset..offset + BLOCK];
    assert tar[offset..][..BLOCK] == header;
    var field := size(header);
    if field.Some? && offset + BLOCK + Padded(field.value) <= |tar| {
      var next := BLOCK + Padded(field.value);
      assert tar[offset..][next..] == tar[offset + next..];
      assert tar[offset..][BLOCK..next] == tar[offset + BLOCK..offset + next];
    }
  }

  /** What the walk accepts is split as it says. */
  lemma {:induction false} WalkIsSound(tar: Bytes, size: SizeField)
    requires Walk(tar, size).Some?
    ensures |Render(Walk(tar, size).value)| <= |tar|
    ensures Splits(tar, Walk(tar, size).value, tar[|Render(Walk(tar, size).value)|..], size)
    ensures |tar| % BLOCK == 0 && |tar| >= 2 * BLOCK
    decreases |tar|
  {
    hide Splits, Render, Padded, Zeros;
    var entries := Walk(tar, size).value;
    if Zeros(tar[..BLOCK]) {
      SplitOfEnd(tar, size);
      assert tar[0..] == tar;
    } else {
      var next := BLOCK + Padded(size(tar[..BLOCK]).value);
      var rest := tar[next..];
      WalkIsSound(rest, size);
      var e := Entry(tar[..BLOCK], tar[BLOCK..next]);
      assert entries == [e] + Walk(rest, size).value;
      SplitExtends(rest, entries[1..], rest[|Render(entries[1..])|..], size, e);
      assert tar == e.header + e.content + rest;
      assert tar[|Render(entries)|..] == rest[|Render(entries[1..])|..];
    }
  }

  lemma SplitOfEnd(end: Bytes, size: SizeField)
    requires Terminator(end)
    ensures Splits(end, [], end, size) && Render([]) == ""
  {}

  lemma SplitExtends(rest: Bytes, entries: seq<Entry>, end: Bytes, size: SizeField, e: Entry)
    requires Splits(rest, entries, end, size) && WellFormed(e, size)
    ensures Splits(e.header + e.content + rest, [e] + entries, end, size)
    ensures |Render([e] + entries)| == |e.header| + |e.content| + |Render(entries)|
  {
    assert ([e] + entries)[1..] == entries;
    assert Render([e] + entries) == e.header + e.content + Render(entries);
    assert e.header + e.content + rest == Render([e] + entries) + end;
  }

  /** Whatever splits is accepted, and with those very entries. */
  lemma {:induction false} WalkIsComplete(tar: Bytes, entries: seq<Entry>, end: Bytes, size: SizeField)
    requires Splits(tar, entries, end, size)
    ensures Walk(tar, size) == Some(entries)
    decreases |entries|
  {
    if entries == [] {
      assert tar == end;
      forall i | 0 <= i < BLOCK ensures tar[..BLOCK][i] == '\0' {
        assert tar[i] == '\0';
      }
    } else {
      var e := entries[0];
      var next := BLOCK + |e.content|;
      var rest := Render(entries[1..]) + end;
      assert WellFormed(e, size);
      assert tar == e.header + e.content + rest;
      assert tar[..BLOCK] == e.header && tar[BLOCK..next] == e.content && tar[next..] == rest;
      WalkIsComplete(rest, entries[1..], end, size);
      assert entries == [e] + entries[1..];
    }
  }

  /** There is never more than one way to split. */
  lemma SplitIsUnique(tar: Bytes, es: seq<Entry>, end: Bytes, fs: seq<Entry>, other: Bytes, size: SizeField)
    requires Splits(tar, es, end, size) && Splits(tar, fs, other, size)
    ensures es == fs && end == other
  {
    WalkIsComplete(tar, es, end, size);
    WalkIsComplete(tar, fs, other, size);
    assert end == tar[|Render(es)|..] && other == tar[|Render(fs)|..];
  }

  method AllZero(bytes: Bytes) returns (zero: bool)
    ensures zero <==> Zeros(bytes)
  {
    for i := 0 to |bytes|
      invariant forall j :: 0 <= j < i ==> bytes[j] == '\0'
    {
      if bytes[i] != '\0' {
        return false;
      }
    }
    return true;
  }

  /** `validate_tar_termination`: accepts exactly the byte strings that split. */
  method ValidateTarTermination(tar: Bytes, size: SizeField) returns (accepted: bool)
    requires |tar| <= USIZE_MAX
    ensures accepted == Walk(tar, size).Some?
    ensures accepted <==> exists entries, end :: Splits(tar, entries, end, size)
  {
    WalkDecides(tar, size);
    hide Walk, Zeros, Splits;
    if |tar| < BLOCK * 2 || |tar| % BLOCK != 0 {
      return false;
    }
    var offset := 0;
    assert tar[0..] == tar;
    WalkNeedsBlock("", size);
    while offset < |tar|
      invariant offset <= |tar| && offset % BLOCK == 0
      invariant Walk(tar, size).Some? == Walk(tar[offset..], size).Some?
      decreases |tar| - offset
    {
      var header := tar[offset..offset + BLOCK];
      var zero := AllZero(header);
      if zero {
        WalkAtEnd(tar, offset, size);
        if offset + BLOCK * 2 > |tar| {
          return false;
        }
        var second := AllZero(tar[offset + BLOCK..offset + BLOCK * 2]);
        var rest := AllZero(tar[offset + BLOCK * 2..]);
        ZerosInParts(tar, offset);
        return second && rest;
      }
      WalkAtEntry(tar, offset, size);
      var field := size(header);
      if field.None? {
        return false;
      }
      var rounded := CheckedAdd(field.value, BLOCK - 1);
      if rounded.None? {
        return false;
      }
      var padded := rounded.value / BLOCK * BLOCK;
      var body := CheckedAdd(offset, BLOCK);
      if body.None? {
        return false;
      }
      var next := CheckedAdd(body.value, padded);
      if next.None? || next.value > |tar| {
        return false;
      }
      offset := next.value;
    }
    return false;
  }

  lemma ZerosInParts(tar: Bytes, offset: nat)
    requires offset + BLOCK * 2 <= |tar|
    ensures Zeros(tar[offset..]) <==>
              && Zeros(tar[offset..offset + BLOCK]) && Zeros(tar[offset + BLOCK..offset + BLOCK * 2])
              && Zeros(tar[offset + BLOCK * 2..])
  {
    var a, b, c := tar[offset..offset + BLOCK], tar[offset + BLOCK..offset + BLOCK * 2], tar[offset + BLOCK * 2..];
    assert tar[offset..] == a + b + c;
    ZerosConcat(a, b);
    ZerosConcat(a + b, c);
  }

  lemma TakeOfSlice(tar: Bytes, from: nat, length: nat, shorter: nat)
    requires from + length <= |tar| && shorter <= length
    ensures tar[from..from + length][..shorter] == tar[from..from + shorter]
  {}

  lemma ZerosConcat(a: Bytes, b: Bytes)
    ensures Zeros(a + b) <==> Zeros(a) && Zeros(b)
  {
    assert forall i :: 0 <= i < |a| ==> (a + b)[i] == a[i];
    assert forall i :: 0 <= i < |b| ==> (a + b)[|a| + i] == b[i];
  }

  /** The walk succeeds exactly when there is a way to split. */
  lemma WalkDecides(tar: Bytes, size: SizeField)
    ensures Walk(tar, size).Some? <==> exists entries, end :: Splits(tar, entries, end, size)
    ensures Walk(tar, size).Some? ==> |tar| % BLOCK == 0 && |tar| >= 2 * BLOCK
  {
    if Walk(tar, size).Some? {
      WalkIsSound(tar, size);
    }
    if entries, end :| Splits(tar, entries, end, size) {
      WalkIsComplete(tar, entries, end, size);
    }
  }
}
