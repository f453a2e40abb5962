/** Splitting text at a separator, as Rust's `str::split` does. */
module Text {

  function Split(text: string, separator: char): (parts: seq<string>)
    ensures parts != []
    ensures forall i :: 0 <= i < |parts| ==> separator !in parts[i]
  {
    if text == "" then [""]
    else
      var rest := Split(text[1..], separator);
      if text[0] == separator then [""] + rest
      else [[text[0]] + rest[0]] + rest[1..]
  }

  /** The parts with the separator between them. */
  function Join(parts: seq<string>, separator: char): string {
    if parts == [] then ""
    else if |parts| == 1 then parts[0]
    else parts[0] + [separator] + Join(parts[1..], separator)
  }

  lemma JoinCons(first: string, rest: seq<string>, separator: char)
    requires rest != []
    ensures Join([first] + rest, separator) == first + [separator] + Join(rest, separator)
  {
    assert ([first] + rest)[1..] == rest;
  }

  /** Splitting loses nothing. */
  lemma {:induction false} JoinOfSplit(text: string, separator: char)
    ensures Join(Split(text, separator), separator) == text
  {
    if text != "" {
      var rest := Split(text[1..], separator);
      JoinOfSplit(text[1..], separator);
      assert text == [text[0]] + text[1..];
      hide Join;
      if text[0] == separator {
        JoinCons("", rest, separator);
      } else {
        JoinHead(text[0], rest, separator);
      }
    }
  }

  /** A character in front of the first part is a character in front of the whole. */
  lemma JoinHead(c: char, parts: seq<string>, separator: char)
    requires parts != []
    ensures Join([[c] + parts[0]] + parts[1..], separator) == [c] + Join(parts, separator)
  {
    if |parts| > 1 {
      JoinCons(parts[0], parts[1..], separator);
      assert parts == [parts[0]] + parts[1..];
      JoinCons([c] + parts[0], parts[1..], separator);
    }
  }

  /** Splitting distributes over a separator. */
  lemma {:induction false} SplitAtSeparator(left: string, right: string, separator: char)
    ensures Split(left + [separator] + right, separator) == Split(left, separator) + Split(right, separator)
  {
    var text := left + [separator] + right;
    if left == "" {
      assert text[1..] == right;
    } else {
      assert text[1..] == left[1..] + [separator] + right;
      SplitAtSeparator(left[1..], right, separator);
    }
  }

  lemma {:induction false} SplitWhole(text: string, separator: char)
    requires separator !in text
    ensures Split(text, separator) == [text]
  {
    if text != "" {
      SplitWhole(text[1..], separator);
      assert text == [text[0]] + text[1..];
    }
  }

  /** No component is empty or a dot name. */
  predicate Normalized(path: string) {
    forall i :: 0 <= i < |Split(path, '/')| ==> Split(path, '/')[i] !in {"", ".", ".."}
  }

  /** A path component: neither empty nor a dot name, and without a separator. */
  predicate Component(part: string) { part !in {"", ".", ".."} && '/' !in part }

  lemma {:induction false} SplitOfJoin(parts: seq<string>, separator: char)
    requires parts != [] && forall p :: p in parts ==> separator !in p
    ensures Split(Join(parts, separator), separator) == parts
  {
    if |parts| == 1 {
      SplitWhole(parts[0], separator);
    } else {
      SplitOfJoin(parts[1..], separator);
      SplitAtSeparator(parts[0], Join(parts[1..], separator), separator);
      SplitWhole(parts[0], separator);
      assert parts == [parts[0]] + parts[1..];
    }
  }

  /** The normalized paths are exactly the components joined by slashes. */
  lemma NormalizedIff(path: string)
    ensures Normalized(path) <==>
              exists parts :: parts != [] && path == Join(parts, '/') && forall p :: p in parts ==> Component(p)
  {
    var split := Split(path, '/');
    JoinOfSplit(path, '/');
    if Normalized(path) {
      assert forall p :: p in split ==> Component(p);
      assert split != [] && path == Join(split, '/');
    }
    if parts :| parts != [] && path == Join(parts, '/') && forall p :: p in parts ==> Component(p) {
      SplitOfJoin(parts, '/');
      assert forall i :: 0 <= i < |parts| ==> Component(parts[i]);
    }
  }

  /** A name without separators is normalized unless it is empty or a dot name. */
  lemma NameIsNormalized(name: string)
    requires '/' !in name
    ensures Normalized(name) <==> name !in {"", ".", ".."}
  {
    SplitWhole(name, '/');
    assert Split(name, '/')[0] == name;
  }

  /** A normalized path begins with something else than a slash. */
  lemma NormalizedEnds(path: string)
    requires Normalized(path)
    ensures path != "" && path[0] != '/'
  {
    assert Split(path, '/')[0] != "";
  }

  predicate StartsWith(text: string, prefix: string) { prefix <= text }
}
