/** Exact package inventories: parsing, printing and comparison (xtask/src/package_content.rs). */
module PackageContent {
  import opened Wrappers
  import opened SemVer
  import opened Text

  const SYNTHETIC_LOCKFILE := "Cargo.lock"

  /** `validate_inventory_path`; on Unix a path with only normal parts has only normal components. */
  predicate ValidPath(path: string) {
    path != "" && path[0] != '#' && '\\' !in path && Normalized(path)
  }

  /** The valid paths: normalized, not a comment, and without backslashes. */
  lemma ValidPathIff(path: string)
    ensures ValidPath(path) <==> Normalized(path) && !StartsWith(path, "#") && '\\' !in path
  {
    if Normalized(path) {
      NormalizedEnds(path);
    }
    hide Normalized;
    assert StartsWith(path, "#") <==> path != "" && path[0] == '#';
  }

  /** A plain name is valid, with a leading dot too, unless it is a dot name or a comment. */
  lemma PlainNames(name: string)
    requires '/' !in name && '\\' !in name
    ensures ValidPath(name) <==> name !in {"", ".", ".."} && name[0] != '#'
  {
    NameIsNormalized(name);
    hide Normalized;
  }

  function RenderLines(paths: seq<string>): string {
    if paths == [] then "" else paths[0] + "\n" + RenderLines(paths[1..])
  }

  /** `str::lines` of a text that ends with a line feed and has no carriage return. */
  function Lines(text: string): seq<string>
    requires text != ""
  {
    Split(text[..|text| - 1], '\n')
  }

  /** Each path comes before the next byte by byte, a proper prefix first. */
  ghost predicate Increasing(paths: seq<string>) {
    forall i :: 0 < i < |paths| ==> TextPrecedes(paths[i - 1], paths[i])
  }

  function Elements(paths: seq<string>): set<string> { set p | p in paths }

  /** A nonempty strictly increasing list of valid one-line paths. */
  ghost predicate Listing(paths: seq<string>) {
    paths != [] && Increasing(paths) && forall p :: p in paths ==> OneLine(p) && ValidPath(p)
  }

  predicate OneLine(path: string) { '\n' !in path && '\r' !in path }

  ghost predicate Accepted(text: string) {
    && text != "" && text[|text| - 1] == '\n' && '\r' !in text
    && Increasing(Lines(text))
    && forall p :: p in Lines(text) ==> ValidPath(p)
  }

  /** `parse_inventory`. */
  method ParseInventory(text: string) returns (result: Result<set<string>>)
    ensures result.Ok? <==> Accepted(text)
    ensures result.Ok? ==> result.value == Elements(Lines(text))
  {
    hide ValidPath, Lines, CompareText, TextPrecedes;
    if text == "" || text[|text| - 1] != '\n' || '\r' in text {
      return Err;
    }
    var lines := Lines(text);
    var paths: set<string> := {};
    var previous: Option<string> := None;
    for i := 0 to |lines|
      invariant paths == Elements(lines[..i])
      invariant previous == if i == 0 then None else Some(lines[i - 1])
      invariant Increasing(lines[..i]) && forall p :: p in lines[..i] ==> ValidPath(p)
    {
      var path := lines[i];
      assert path in lines;
      if !ValidPath(path) {
        return Err;
      }
      if previous.Some? {
        TextRule(previous.value, path);
        if CompareText(previous.value, path) != Less {
          return Err;
        }
      }
      assert lines[..i + 1] == lines[..i] + [path];
      paths := paths + {path};
      previous := Some(path);
    }
    assert lines[..|lines|] == lines;
    result := Ok(paths);
  }

  lemma {:induction false} SplitOfFirst(first: string, rest: string, separator: char)
    requires separator !in first
    ensures Split(first + [separator] + rest, separator) == [first] + Split(rest, separator)
  {
    SplitAtSeparator(first, rest, separator);
    SplitWhole(first, separator);
  }

  /** Reading the lines back from a rendering. */
  lemma {:induction false} LinesOfRender(paths: seq<string>)
    requires paths != [] && forall p :: p in paths ==> '\n' !in p
    ensures RenderLines(paths) != "" && RenderLines(paths)[|RenderLines(paths)| - 1] == '\n'
    ensures Lines(RenderLines(paths)) == paths
  {
    var text, first := RenderLines(paths), paths[0];
    if |paths| == 1 {
      assert paths[1..] == [] && RenderLines(paths[1..]) == "";
      assert text == first + "\n";
      assert text[..|text| - 1] == first;
      SplitWhole(first, '\n');
    } else {
      var rest := RenderLines(paths[1..]);
      LinesOfRender(paths[1..]);
      assert text[..|text| - 1] == first + ['\n'] + rest[..|rest| - 1];
      SplitOfFirst(first, rest[..|rest| - 1], '\n');
      assert paths == [first] + paths[1..];
    }
  }

  /** A text that ends with a line feed is the rendering of its lines. */
  lemma RenderOfLines(text: string)
    requires text != "" && text[|text| - 1] == '\n'
    ensures RenderLines(Lines(text)) == text
  {
    JoinOfSplit(text[..|text| - 1], '\n');
    RenderIsJoin(Lines(text));
  }

  lemma {:induction false} RenderIsJoin(parts: seq<string>)
    requires parts != []
    ensures RenderLines(parts) == Join(parts, '\n') + "\n"
  {
    if |parts| == 1 {
      assert parts[1..] == [];
    } else {
      RenderIsJoin(parts[1..]);
    }
  }

  lemma {:induction false} RenderKeepsOut(paths: seq<string>, c: char)
    requires c != '\n'
    ensures c in RenderLines(paths) <==> exists p :: p in paths && c in p
  {
    if paths != [] {
      RenderKeepsOut(paths[1..], c);
      assert paths == [paths[0]] + paths[1..];
    }
  }

  /** The accepted texts are exactly the renderings of listings. */
  lemma AcceptedIsRendered(text: string)
    ensures Accepted(text) <==> exists paths :: Listing(paths) && text == RenderLines(paths)
    ensures Accepted(text) ==> Listing(Lines(text))
  {
    if text != "" && text[|text| - 1] == '\n' {
      RenderOfLines(text);
      RenderKeepsOut(Lines(text), '\r');
    }
    assert Accepted(text) ==> Listing(Lines(text)) && text == RenderLines(Lines(text));
    if paths :| Listing(paths) && text == RenderLines(paths) {
      LinesOfRender(paths);
      RenderKeepsOut(paths, '\r');
    }
  }

  lemma OnlyEmptyHasNone(paths: seq<string>)
    ensures Elements(paths) == {} <==> paths == []
  {
    assert paths != [] ==> paths[0] in Elements(paths);
  }

  /** In a strictly increasing list every element precedes every later one. */
  lemma {:induction false} FirstIsLeast(paths: seq<string>, i: nat)
    requires Increasing(paths) && 0 < i < |paths|
    ensures CompareText(paths[0], paths[i]) == Less
  {
    if i > 1 {
      FirstIsLeast(paths, i - 1);
      TextOrder(paths[0], paths[i - 1], paths[i]);
    }
    TextRule(paths[i - 1], paths[i]);
  }

  /** A set has only one strictly increasing listing. */
  lemma {:induction false} ListingIsUnique(a: seq<string>, b: seq<string>)
    requires Increasing(a) && Increasing(b) && Elements(a) == Elements(b)
    ensures a == b
  {
    if a == [] || b == [] {
      OnlyEmptyHasNone(a);
      OnlyEmptyHasNone(b);
    } else {
      HeadsAgree(a, b);
      TailElements(a);
      TailElements(b);
      ListingIsUnique(a[1..], b[1..]);
      assert a == [a[0]] + a[1..] && b == [b[0]] + b[1..];
    }
  }

  lemma HeadsAgree(a: seq<string>, b: seq<string>)
    requires a != [] && b != [] && Increasing(a) && Increasing(b) && Elements(a) == Elements(b)
    ensures a[0] == b[0]
  {
    assert a[0] in Elements(b) && b[0] in Elements(a);
    var i :| 0 <= i < |b| && b[i] == a[0];
    var j :| 0 <= j < |a| && a[j] == b[0];
    if i > 0 {
      FirstIsLeast(b, i);
    }
    if j > 0 {
      FirstIsLeast(a, j);
    }
    TextOrder(a[0], b[0], a[0]);
  }

  lemma TailElements(paths: seq<string>)
    requires paths != [] && Increasing(paths)
    ensures Increasing(paths[1..]) && Elements(paths[1..]) == Elements(paths) - {paths[0]}
  {
    assert paths == [paths[0]] + paths[1..];
    forall i | 0 < i < |paths| ensures paths[i] != paths[0] {
      FirstIsLeast(paths, i);
      TextOrder(paths[0], paths[0], paths[0]);
    }
    assert paths[0] !in paths[1..];
  }

  /** Putting a new path where it belongs. */
  ghost function Insert(path: string, paths: seq<string>): (r: seq<string>)
    requires Increasing(paths) && path !in paths
    ensures Increasing(r) && Elements(r) == Elements(paths) + {path}
    ensures r[0] == path || (paths != [] && r[0] == paths[0])
  {
    if paths == [] then [path]
    else
      TextOrder(path, paths[0], path);
      TextRule(path, paths[0]);
      TextRule(paths[0], path);
      TailElements(paths);
      if CompareText(path, paths[0]) == Less then [path] + paths
      else [paths[0]] + Insert(path, paths[1..])
  }

  /** The iteration order of a `BTreeSet<String>`. */
  ghost function Listed(paths: set<string>): (r: seq<string>)
    ensures Increasing(r) && Elements(r) == paths
  {
    if paths == {} then []
    else
      var path :| path in paths;
      var rest := Listed(paths - {path});
      assert path !in Elements(rest);
      Insert(path, rest)
  }

  /** Printing the parsed set of an accepted text gives the text back, byte for byte. */
  lemma ParseThenPrint(text: string)
    requires Accepted(text)
    ensures RenderLines(Listed(Elements(Lines(text)))) == text
  {
    ListingIsUnique(Listed(Elements(Lines(text))), Lines(text));
    RenderOfLines(text);
  }

  /** Every nonempty set of valid paths, printed in byte order, parses to itself. */
  lemma PrintThenParse(paths: set<string>)
    requires paths != {} && forall p :: p in paths ==> OneLine(p) && ValidPath(p)
    ensures Accepted(RenderLines(Listed(paths)))
    ensures Elements(Lines(RenderLines(Listed(paths)))) == paths
  {
    var listed := Listed(paths);
    assert forall p :: p in listed ==> p in Elements(listed);
    OnlyEmptyHasNone(listed);
    LinesOfRender(listed);
    RenderKeepsOut(listed, '\r');
  }

  datatype Difference = Difference(missing: seq<string>, unexpected: seq<string>)

  /** `compare_inventories`. */
  ghost function CompareInventories(expected: set<string>, actual: set<string>): Difference {
    Difference(Listed(expected - actual), Listed(actual - expected))
  }

  /** The two lists together say exactly how the sets differ; both are empty only for equal sets. */
  lemma DifferenceIsExact(expected: set<string>, actual: set<string>)
    ensures var d := CompareInventories(expected, actual);
            && (d.missing == [] && d.unexpected == [] <==> expected == actual)
            && expected == actual - Elements(d.unexpected) + Elements(d.missing)
  {
    var d := CompareInventories(expected, actual);
    assert Elements(d.missing) == expected - actual && Elements(d.unexpected) == actual - expected;
    assert expected == actual - (actual - expected) + (expected - actual);
    OnlyEmptyHasNone(d.missing);
    OnlyEmptyHasNone(d.unexpected);
    assert expected - actual == {} && actual - expected == {} ==> expected == actual;
  }

  /** `check_package` on what `cargo package --list` printed, with the lockfile added. */
  ghost predicate PackageMatches(inventory: string, listed: string) {
    && Accepted(inventory) && Accepted(listed)
    && var d := CompareInventories(Elements(Lines(inventory)), Elements(Lines(listed)) + {SYNTHETIC_LOCKFILE});
       d.missing == [] && d.unexpected == []
  }

  method CheckPackage(inventory: string, listed: string) returns (count: Result<nat>)
    ensures count.Ok? <==> PackageMatches(inventory, listed)
    ensures count.Ok? <==>
              && Accepted(inventory) && Accepted(listed)
              && Elements(Lines(inventory)) == Elements(Lines(listed)) + {"Cargo.lock"}
    ensures count.Ok? ==> count.value == |Elements(Lines(inventory))|
  {
    var expected := ParseInventory(inventory);
    if expected.Err? {
      return Err;
    }
    var printed := ParseInventory(listed);
    if printed.Err? {
      return Err;
    }
    var actual := printed.value + {SYNTHETIC_LOCKFILE};
    DifferenceIsExact(expected.value, actual);
    var missing, unexpected := expected.value - actual, actual - expected.value;
    OnlyEmptyHasNone(Listed(missing));
    OnlyEmptyHasNone(Listed(unexpected));
    if missing != {} || unexpected != {} {
      return Err;
    }
    assert expected.value == actual;
    count := Ok(|actual|);
  }

  /** At most one inventory text matches a package. */
  lemma MatchingInventoryIsUnique(a: string, b: string, listed: string)
    requires PackageMatches(a, listed) && PackageMatches(b, listed)
    ensures a == b
  {
    var actual := Elements(Lines(listed)) + {SYNTHETIC_LOCKFILE};
    DifferenceIsExact(Elements(Lines(a)), actual);
    DifferenceIsExact(Elements(Lines(b)), actual);
    ParseThenPrint(a);
    ParseThenPrint(b);
  }
}
