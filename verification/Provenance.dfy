/**
 * Git-object provenance of a release source: the inventory chain a binding is
 * loaded from, and the two checks of a loaded binding against a base tip.
 */
module Provenance {
  import opened CommitGraph
  import opened Decimal
  import opened ReleasePolicy
  import opened Text
  import opened Wrappers

  datatype Operation = Fresh | Recover

  /** Regular is mode 100644, Executable 100755; every other tree entry is Special. */
  datatype Mode = Regular | Executable | Special
  datatype Entry = Entry(mode: Mode, oid: nat)

  datatype Inventory = Inventory(
    schema: nat, baseRef: string, anchor: nat, policy: nat, enforce: bool, blobs: map<string, nat>)

  /**
   * An object database: commits, their trees, and what the blobs that matter
   * decode to. A blob absent from `inventories` is oversized or not valid JSON.
   */
  datatype Repo = Repo(
    graph: Graph, trees: map<nat, map<string, Entry>>, inventories: map<nat, Inventory>, seeds: map<nat, seq<string>>)

  datatype Binding = Binding(line: ReleaseLine, operation: Operation, main: nat, source: nat, anchor: Option<nat>)

  const INVENTORY_DIR := ".github/support-lines/"
  const SEED_PATH := ".github/support-policy-paths.txt"
  const MAX_PATHS := 256

  // ----- Reading one commit -----

  function InventoryPath(line: ReleaseLine): string
    requires line.Support?
  {
    INVENTORY_DIR + Print(line.major) + "." + Print(line.minor) + ".json"
  }

  predicate IsPathChar(c: char) { IsDigit(c) || 'a' <= c <= 'z' || 'A' <= c <= 'Z' || c in "-._/" }

  predicate RequirePath(path: string) {
    && path != "" && !StartsWith(path, "/") && !StartsWith(path, INVENTORY_DIR)
    && Normalized(path)
    && forall i :: 0 <= i < |path| ==> IsPathChar(path[i])
  }

  function BlobAt(r: Repo, commit: nat, path: string): Result<nat> {
    if !RequirePath(path) || commit !in r.trees || path !in r.trees[commit] then Err
    else if r.trees[commit][path].mode == Special then Err
    else Ok(r.trees[commit][path].oid)
  }

  /** `ls-tree -r --name-only` below the inventory directory. */
  function ActiveInventories(r: Repo, commit: nat): set<string> {
    if commit !in r.trees then {} else set p | p in r.trees[commit] && StartsWith(p, INVENTORY_DIR)
  }

  function ReadInventory(r: Repo, commit: nat, line: ReleaseLine): Result<Inventory>
    requires line.Support?
  {
    var path := InventoryPath(line);
    if commit !in r.trees || path !in r.trees[commit] || r.trees[commit][path].mode != Regular then Err
    else if r.trees[commit][path].oid !in r.inventories then Err
    else
      var value := r.inventories[r.trees[commit][path].oid];
      if value.schema != 1 || value.baseRef != BaseRef(line) then Err
      else if |value.blobs| == 0 || |value.blobs| > MAX_PATHS then Err
      else if exists p :: p in value.blobs && !RequirePath(p) then Err
      else Ok(value)
  }

  // ----- Loops that fill a map -----

  predicate Distinct<T(==)>(s: seq<T>) { forall i, j :: 0 <= i < j < |s| ==> s[i] != s[j] }

  predicate DistinctKeys<V>(entries: seq<(string, V)>) {
    forall i, j :: 0 <= i < j < |entries| ==> entries[i].0 != entries[j].0
  }

  /** JSON object entries become a map exactly when the paths are distinct and at most 256. */
  method UniqueBlobs(entries: seq<(string, nat)>) returns (result: Result<map<string, nat>>)
    ensures result.Ok? <==> |entries| <= MAX_PATHS && DistinctKeys(entries)
    ensures result.Ok? ==>
              && |result.value| == |entries|
              && (forall e :: e in entries ==> e.0 in result.value && result.value[e.0] == e.1)
              && (forall p :: p in result.value ==> (p, result.value[p]) in entries)
  {
    var filled: map<string, nat> := map[];
    for i := 0 to |entries|
      invariant |filled| == i <= MAX_PATHS
      invariant forall j, k :: 0 <= j < k < i ==> entries[j].0 != entries[k].0
      invariant forall k :: 0 <= k < i ==> entries[k].0 in filled && filled[entries[k].0] == entries[k].1
      invariant forall p :: p in filled ==> exists k :: 0 <= k < i && entries[k] == (p, filled[p])
    {
      var (path, oid) := entries[i];
      if |filled| >= MAX_PATHS {
        return Err;
      }
      if path in filled {
        return Err;
      }
      filled := filled[path := oid];
    }
    result := Ok(filled);
  }

  predicate SeedLine(line: string) { line != "" && line[0] != '#' }

  function SeedPaths(r: Repo, main: nat): Result<seq<string>> {
    if main !in r.trees || SEED_PATH !in r.trees[main] || r.trees[main][SEED_PATH].oid !in r.seeds then Err
    else Ok(Filter(SeedLine, r.seeds[r.trees[main][SEED_PATH].oid]))
  }

  /** The first paths are distinct regular blobs, and `blobs` holds exactly them. */
  ghost predicate Collected(r: Repo, main: nat, paths: seq<string>, blobs: map<string, nat>) {
    && Distinct(paths) && |blobs| == |paths|
    && (forall p :: p in paths <==> p in blobs)
    && (forall p :: p in paths ==> BlobAt(r, main, p) == Ok(blobs[p]))
  }

  lemma CollectOne(r: Repo, main: nat, paths: seq<string>, blobs: map<string, nat>, path: string)
    requires Collected(r, main, paths, blobs)
    ensures path in blobs ==> !Distinct(paths + [path])
    ensures path !in blobs && BlobAt(r, main, path).Ok? ==>
              Collected(r, main, paths + [path], blobs[path := BlobAt(r, main, path).value])
  {
    hide BlobAt;
    if path in blobs {
      var k :| 0 <= k < |paths| && paths[k] == path;
      assert (paths + [path])[k] == (paths + [path])[|paths|];
    }
  }

  /** The listed paths as a map, unless one is not a regular blob or is listed twice. */
  function Blobs(r: Repo, main: nat, paths: seq<string>): Result<map<string, nat>> {
    if Distinct(paths) && forall p :: p in paths ==> BlobAt(r, main, p).Ok?
    then Ok(map p | p in paths :: BlobAt(r, main, p).value)
    else Err
  }

  lemma BlobsOf(r: Repo, main: nat, paths: seq<string>, blobs: map<string, nat>)
    requires Collected(r, main, paths, blobs)
    ensures Blobs(r, main, paths) == Ok(blobs)
  {
    hide BlobAt;
    assert blobs == map p | p in paths :: BlobAt(r, main, p).value;
  }

  lemma BlobsFail(r: Repo, main: nat, paths: seq<string>, i: nat)
    requires i < |paths| && (BlobAt(r, main, paths[i]).Err? || !Distinct(paths[..i + 1]))
    ensures Blobs(r, main, paths) == Err
  {
    hide BlobAt;
  }

  /** The seed's blob map: every listed path once, each a regular blob, 1 through 256 of them. */
  function SeedBlobs(r: Repo, main: nat): Result<map<string, nat>> {
    match SeedPaths(r, main)
    case Err => Err
    case Ok(paths) =>
      match Blobs(r, main, paths)
      case Err => Err
      case Ok(blobs) => if 0 < |blobs| <= MAX_PATHS then Ok(blobs) else Err
  }

  method CollectBlobs(r: Repo, main: nat, paths: seq<string>) returns (result: Result<map<string, nat>>)
    ensures result == Blobs(r, main, paths)
  {
    var blobs: map<string, nat> := map[];
    var i := 0;
    while i < |paths|
      invariant 0 <= i <= |paths|
      invariant Collected(r, main, paths[..i], blobs)
    {
      var blob := BlobAt(r, main, paths[i]);
      CollectOne(r, main, paths[..i], blobs, paths[i]);
      assert paths[..i + 1] == paths[..i] + [paths[i]];
      if blob.Err? || paths[i] in blobs {
        BlobsFail(r, main, paths, i);
        return Err;
      }
      blobs := blobs[paths[i] := blob.value];
      i := i + 1;
    }
    assert paths[..|paths|] == paths;
    BlobsOf(r, main, paths, blobs);
    result := Ok(blobs);
  }

  // ----- Loading a binding -----

  /** The path set that the recorded policy commit itself requires. */
  function HistoricalPaths(r: Repo, line: ReleaseLine, recorded: Inventory): Result<set<string>>
    requires line.Support?
  {
    if recorded.policy !in r.trees then Err
    else if InventoryPath(line) !in r.trees[recorded.policy] then
      if !recorded.enforce then Err
      else match SeedBlobs(r, recorded.policy)
        case Ok(blobs) => Ok(blobs.Keys)
        case Err => Err
    else match ReadInventory(r, recorded.policy, line)
      case Err => Err
      case Ok(historical) =>
        if historical.anchor != recorded.anchor || historical.enforce != recorded.enforce then Err
        else Ok(historical.blobs.Keys)
  }

  /** The seed can be read and lists 1 through 256 distinct paths, each a regular blob of main. */
  predicate Seedable(r: Repo, main: nat) {
    && SeedPaths(r, main).Ok?
    && var paths := SeedPaths(r, main).value;
       0 < |paths| <= MAX_PATHS && Distinct(paths) && forall p :: p in paths ==> BlobAt(r, main, p).Ok?
  }

  lemma SeedBlobsOf(r: Repo, main: nat)
    ensures SeedBlobs(r, main).Ok? <==> Seedable(r, main)
    ensures Seedable(r, main) ==> SeedBlobs(r, main) == Blobs(r, main, SeedPaths(r, main).value)
  {
    hide BlobAt;
    if SeedPaths(r, main).Ok? && Blobs(r, main, SeedPaths(r, main).value).Ok? {
      var paths := SeedPaths(r, main).value;
      DistinctCount(paths);
      assert Blobs(r, main, paths).value.Keys == set p | p in paths;
    }
  }

  lemma {:induction false} DistinctCount<T>(s: seq<T>)
    requires Distinct(s)
    ensures |set x | x in s| == |s|
  {
    if s != [] {
      var rest, last := s[..|s| - 1], s[|s| - 1];
      DistinctCount(rest);
      assert last !in rest;
      assert (set x | x in s) == (set x | x in rest) + {last};
    }
  }

  /**
   * `seed_inventory`: the inventory proposed for a new line holds main's blob
   * at exactly the listed paths. On a main without an inventory of the line it
   * requires just what the historical check of that main will look for.
   */
  method SeedInventory(r: Repo, line: ReleaseLine, anchor: nat, main: nat) returns (result: Result<Inventory>)
    ensures result.Ok? <==> Seedable(r, main)
    ensures result.Ok? ==>
              var blobs, paths := result.value.blobs, SeedPaths(r, main).value;
              && result.value == Inventory(1, BaseRef(line), anchor, main, true, blobs)
              && blobs.Keys == (set p | p in paths) && |blobs| == |paths|
              && forall p :: p in paths ==> BlobAt(r, main, p) == Ok(blobs[p])
    ensures result.Ok? && line.Support? && InventoryPath(line) !in r.trees[main] ==>
              HistoricalPaths(r, line, result.value) == Ok(result.value.blobs.Keys)
  {
    SeedBlobsOf(r, main);
    var seed := SeedPaths(r, main);
    if seed.Err? {
      return Err;
    }
    var collected := CollectBlobs(r, main, seed.value);
    if collected.Err? {
      return Err;
    }
    var blobs := collected.value;
    if Distinct(seed.value) {
      DistinctCount(seed.value);
    }
    assert blobs.Keys == set p | p in seed.value;
    if |blobs| == 0 || |blobs| > MAX_PATHS {
      return Err;
    }
    result := Ok(Inventory(1, BaseRef(line), anchor, main, true, blobs));
  }

  predicate HistoricalChain(r: Repo, main: nat, source: nat, line: ReleaseLine, recorded: Inventory)
    requires line.Support?
  {
    && Ancestor(r.graph, recorded.policy, main)
    && HistoricalPaths(r, line, recorded) == Ok(recorded.blobs.Keys)
    && forall p :: p in recorded.blobs ==>
         && BlobAt(r, source, p) == Ok(recorded.blobs[p])
         && BlobAt(r, recorded.policy, p) == Ok(recorded.blobs[p])
  }

  predicate FreshContent(r: Repo, main: nat, active: Inventory, recorded: Inventory) {
    active.enforce ==>
      && recorded.enforce && recorded.blobs.Keys == active.blobs.Keys
      && forall p :: p in recorded.blobs ==> BlobAt(r, main, p) == Ok(recorded.blobs[p])
  }

  function Load(r: Repo, choose: set<nat> -> nat, main: nat, source: nat, line: ReleaseLine, operation: Operation)
    : Result<Binding>
  {
    if line == Main then Ok(Binding(line, operation, main, source, None))
    else if ActiveInventories(r, main) != {InventoryPath(line)} then Err
    else match (ReadInventory(r, main, line), ReadInventory(r, source, line))
      case (Ok(active), Ok(recorded)) =>
        if active.anchor != recorded.anchor then Err
        else if !Ancestor(r.graph, active.anchor, source) || !Ancestor(r.graph, active.anchor, main) then Err
        else if !MergeBaseIs(r.graph, choose, source, main, active.anchor) then Err
        else if !HistoricalChain(r, main, source, line, recorded) then Err
        else if operation == Fresh && !FreshContent(r, main, active, recorded) then Err
        else Ok(Binding(line, operation, main, source, Some(active.anchor)))
      case _ => Err
  }

  // ----- What an accepted binding implies -----

  /** A binding accepted as fresh is also accepted for recovery. */
  lemma FreshIsRecoverable(r: Repo, choose: set<nat> -> nat, main: nat, source: nat, line: ReleaseLine)
    requires Load(r, choose, main, source, line, Fresh).Ok?
    ensures Load(r, choose, main, source, line, Recover)
         == Ok(Load(r, choose, main, source, line, Fresh).value.(operation := Recover))
  {
  }

  /**
   * Under an enforcing main inventory, source, recorded policy commit and
   * current main carry the same blob at every path that main requires.
   */
  lemma FreshBlobChain(r: Repo, choose: set<nat> -> nat, main: nat, source: nat, line: ReleaseLine, path: string)
    requires line.Support? && Load(r, choose, main, source, line, Fresh).Ok?
    requires ReadInventory(r, main, line).value.enforce && path in ReadInventory(r, main, line).value.blobs
    ensures var policy := ReadInventory(r, source, line).value.policy;
            && BlobAt(r, main, path).Ok?
            && BlobAt(r, source, path) == BlobAt(r, policy, path) == BlobAt(r, main, path)
            && Ancestor(r.graph, policy, main)
  {
    var recorded := ReadInventory(r, source, line).value;
    assert path in recorded.blobs.Keys;
  }

  /** A source that contains a main commit made after the anchor is rejected, on any graph. */
  lemma MergedSourceRejected(
    r: Repo, choose: set<nat> -> nat, main: nat, source: nat, line: ReleaseLine, operation: Operation, merged: nat)
    requires IsChoice(choose) && line.Support? && ReadInventory(r, main, line).Ok?
    requires Ancestor(r.graph, merged, main) && Ancestor(r.graph, merged, source)
    requires var anchor := ReadInventory(r, main, line).value.anchor;
             Ancestor(r.graph, anchor, merged) && anchor != merged
    ensures Load(r, choose, main, source, line, operation) == Err
  {
    var anchor := ReadInventory(r, main, line).value.anchor;
    assert merged in CommonAncestors(r.graph, source, main);
    assert anchor !in Best(r.graph, source, main);
    assert Best(r.graph, source, main) != {} ==>
      choose(Best(r.graph, source, main)) in Best(r.graph, source, main);
  }

  /** `newer` was reached from `older` by commits with one parent each. */
  predicate LinearExtension(g: Graph, older: nat, newer: nat) {
    && older in g.parents && newer in g.parents
    && (older == newer
        || exists p :: p in g.parents[newer] && g.parents[newer] == {p} && p < newer && LinearExtension(g, older, p))
  }

  lemma {:induction false} LinearAncestors(g: Graph, older: nat, newer: nat, c: nat)
    requires LinearExtension(g, older, newer)
    ensures Ancestor(g, older, newer)
    ensures Ancestor(g, c, newer) ==> Ancestor(g, c, older) || (Ancestor(g, older, c) && c != older)
    decreases newer
  {
    if older != newer {
      var p :| p in g.parents[newer] && g.parents[newer] == {p} && p < newer && LinearExtension(g, older, p);
      LinearAncestors(g, older, p, c);
      AncestorOrder(g, older, p);
      assert Ancestor(g, older, newer);
      if Ancestor(g, c, newer) && c != newer {
        assert Ancestor(g, c, p);
      }
    }
  }

  /** Main still selects exactly this line, with the same anchor. */
  predicate KeepsInventory(r: Repo, main: nat, line: ReleaseLine, anchor: nat)
    requires line.Support?
  {
    && ActiveInventories(r, main) == {InventoryPath(line)}
    && ReadInventory(r, main, line).Ok? && ReadInventory(r, main, line).value.anchor == anchor
  }

  /** None of the commits main gained is part of the source. */
  ghost predicate Untouched(g: Graph, before: nat, after: nat, source: nat) {
    forall x :: Ancestor(g, before, x) && x != before && Ancestor(g, x, after) ==> !Ancestor(g, x, source)
  }

  /**
   * On any graph at all: after main advances linearly and keeps this line's
   * inventory and anchor, an accepted source is still accepted exactly when
   * it contains none of the commits main gained.
   */
  lemma RecoveryStableIff(
    r: Repo, choose: set<nat> -> nat, before: nat, after: nat, source: nat, line: ReleaseLine)
    requires IsChoice(choose) && line.Support?
    requires Load(r, choose, before, source, line, Recover).Ok?
    requires LinearExtension(r.graph, before, after)
    requires KeepsInventory(r, after, line, ReadInventory(r, before, line).value.anchor)
    ensures Load(r, choose, after, source, line, Recover).Ok? <==> Untouched(r.graph, before, after, source)
    ensures Untouched(r.graph, before, after, source) ==>
              Load(r, choose, after, source, line, Recover)
                == Ok(Load(r, choose, before, source, line, Recover).value.(main := after))
  {
    var g, anchor := r.graph, ReadInventory(r, before, line).value.anchor;
    LoadedAnchor(r, choose, before, source, line, Recover);
    if Untouched(g, before, after, source) {
      StaysLoaded(r, choose, before, after, source, line);
    } else {
      hide Load, ReadInventory, ActiveInventories;
      var x :| Ancestor(g, before, x) && x != before && Ancestor(g, x, after) && Ancestor(g, x, source);
      AncestorTransitive(g, anchor, before, x);
      AncestorOrder(g, anchor, before);
      AncestorOrder(g, before, x);
      MergedSourceRejected(r, choose, after, source, line, Recover, x);
    }
  }

  lemma LoadedAnchor(
    r: Repo, choose: set<nat> -> nat, main: nat, source: nat, line: ReleaseLine, operation: Operation)
    requires line.Support? && Load(r, choose, main, source, line, operation).Ok?
    ensures ReadInventory(r, main, line).Ok? && ReadInventory(r, source, line).Ok?
    ensures var anchor := ReadInventory(r, main, line).value.anchor;
            && Ancestor(r.graph, anchor, main) && Ancestor(r.graph, anchor, source)
            && MergeBaseIs(r.graph, choose, source, main, anchor)
  {
    hide ReadInventory, ActiveInventories, HistoricalChain, FreshContent;
  }

  /** The check of the earlier main carries over to a later one with the same merge bases. */
  lemma StaysLoaded(
    r: Repo, choose: set<nat> -> nat, before: nat, after: nat, source: nat, line: ReleaseLine)
    requires line.Support? && Load(r, choose, before, source, line, Recover).Ok?
    requires LinearExtension(r.graph, before, after) && Untouched(r.graph, before, after, source)
    requires KeepsInventory(r, after, line, ReadInventory(r, before, line).value.anchor)
    ensures Load(r, choose, after, source, line, Recover)
         == Ok(Load(r, choose, before, source, line, Recover).value.(main := after))
  {
    var g := r.graph;
    UntouchedBest(g, before, after, source);
    ChainExtends(r, choose, before, after, source, line);
    hide Best, Ancestor, LinearExtension, Untouched, ReadInventory, ActiveInventories, HistoricalChain;
  }

  lemma ChainExtends(
    r: Repo, choose: set<nat> -> nat, before: nat, after: nat, source: nat, line: ReleaseLine)
    requires line.Support? && Load(r, choose, before, source, line, Recover).Ok?
    requires Ancestor(r.graph, before, after)
    ensures Ancestor(r.graph, ReadInventory(r, before, line).value.anchor, after)
    ensures HistoricalChain(r, after, source, line, ReadInventory(r, source, line).value)
  {
    AncestorTransitive(r.graph, ReadInventory(r, before, line).value.anchor, before, after);
    AncestorTransitive(r.graph, ReadInventory(r, source, line).value.policy, before, after);
    hide Best, Ancestor, ReadInventory, ActiveInventories, HistoricalPaths, BlobAt;
  }

  /** Growing main by commits that are not in the source keeps the merge bases. */
  lemma UntouchedBest(g: Graph, before: nat, after: nat, source: nat)
    requires LinearExtension(g, before, after) && Untouched(g, before, after, source)
    ensures Best(g, source, after) == Best(g, source, before)
    ensures Ancestor(g, before, after)
  {
    LinearAncestors(g, before, after, before);
    forall c ensures c in CommonAncestors(g, source, after) <==> c in CommonAncestors(g, source, before) {
      LinearAncestors(g, before, after, c);
      if Ancestor(g, c, before) { AncestorTransitive(g, c, before, after); }
    }
    assert CommonAncestors(g, source, after) == CommonAncestors(g, source, before);
  }

  /** An accepted source contains main itself only where main is its own anchor. */
  lemma MainOutsideSource(
    r: Repo, choose: set<nat> -> nat, main: nat, source: nat, line: ReleaseLine, operation: Operation)
    requires line.Support? && Load(r, choose, main, source, line, operation).Ok?
    requires IsChoice(choose)
    ensures Ancestor(r.graph, main, source) <==> ReadInventory(r, main, line).value.anchor == main
  {
    LoadedAnchor(r, choose, main, source, line, operation);
    hide Load, ReadInventory;
    if Ancestor(r.graph, main, source) {
      AncestorIsOnlyBest(r.graph, main, source);
      BestIsSymmetric(r.graph, source, main);
      assert choose({main}) in {main};
    }
  }

  /**
   * Recovery stability: an accepted source stays accepted at every linear
   * extension of main that keeps this line's inventory and anchor, with the
   * same binding but for its main. The anchor is an earlier commit than the
   * main whose tree names it, as every recorded anchor is.
   */
  lemma RecoveryStable(
    r: Repo, choose: set<nat> -> nat, before: nat, after: nat, source: nat, line: ReleaseLine)
    requires IsChoice(choose) && line.Support?
    requires Load(r, choose, before, source, line, Recover).Ok?
    requires ReadInventory(r, before, line).value.anchor != before
    requires LinearExtension(r.graph, before, after)
    requires KeepsInventory(r, after, line, ReadInventory(r, before, line).value.anchor)
    ensures Load(r, choose, after, source, line, Recover)
         == Ok(Load(r, choose, before, source, line, Recover).value.(main := after))
  {
    MainOutsideSource(r, choose, before, source, line, Recover);
    forall x | Ancestor(r.graph, before, x) ensures !Ancestor(r.graph, x, source) {
      if Ancestor(r.graph, x, source) { AncestorTransitive(r.graph, before, x, source); }
    }
    hide Load, ReadInventory;
    RecoveryStableIff(r, choose, before, after, source, line);
  }

  // ----- The two checks of a loaded binding -----

  datatype Status = Ahead | Identical | Behind | Diverged

  /** The comparison API: how `head` relates to `base`, and one merge base. */
  datatype Comparison = Comparison(status: Status, baseCommit: nat, mergeBase: nat)

  function Compare(g: Graph, api: set<nat> -> nat, base: nat, head: nat): Result<Comparison> {
    if Best(g, base, head) == {} then Err
    else
      var status := if base == head then Identical else if Ancestor(g, base, head) then Ahead
                    else if Ancestor(g, head, base) then Behind else Diverged;
      Ok(Comparison(status, base, api(Best(g, base, head))))
  }

  predicate OnLineage(comparison: Result<Comparison>, source: nat) {
    && comparison.Ok?
    && (comparison.value.status == Ahead || comparison.value.status == Identical)
    && comparison.value.baseCommit == source && comparison.value.mergeBase == source
  }

  predicate Anchored(comparison: Result<Comparison>, commit: nat, anchor: nat) {
    comparison.Ok? && comparison.value.baseCommit == commit && comparison.value.mergeBase == anchor
  }

  /** `Binding::verify` for given live tips: the comparisons it makes. */
  predicate VerifyApi(g: Graph, api: set<nat> -> nat, b: Binding, base: nat) {
    && (b.operation == Fresh ==> base == b.source)
    && OnLineage(Compare(g, api, b.source, base), b.source)
    && (b.anchor.Some? ==>
          && Anchored(Compare(g, api, b.source, b.main), b.source, b.anchor.value)
          && Anchored(Compare(g, api, base, b.main), base, b.anchor.value))
  }

  /** `Binding::verify_git` in a fetched object database. */
  predicate VerifyGit(g: Graph, choose: set<nat> -> nat, b: Binding, base: nat) {
    && (b.operation == Fresh ==> base == b.source)
    && Ancestor(g, b.source, base)
    && (b.anchor.Some? ==> MergeBaseIs(g, choose, base, b.main, b.anchor.value))
  }

  /** The lineage part of the API check is the ancestor test, whatever merge base the API prefers. */
  lemma LineageIsAncestry(g: Graph, api: set<nat> -> nat, source: nat, base: nat)
    requires IsChoice(api)
    ensures OnLineage(Compare(g, api, source, base), source) <==> Ancestor(g, source, base)
  {
    if Ancestor(g, source, base) {
      AncestorIsOnlyBest(g, source, base);
      assert api(Best(g, source, base)) in Best(g, source, base);
    }
  }

  /** If the tip's only best common ancestor with main is the anchor, so is the source's. */
  lemma SourceInheritsAnchor(g: Graph, source: nat, base: nat, main: nat, anchor: nat)
    requires Ancestor(g, source, base) && OnlyBest(g, base, main, anchor) && anchor in Best(g, source, main)
    ensures OnlyBest(g, source, main, anchor)
  {
    forall c | c in Best(g, source, main) ensures c == anchor {
      AncestorTransitive(g, c, source, base);
      assert c in CommonAncestors(g, base, main);
      var best := BestAbove(g, base, main, c);
      assert anchor in CommonAncestors(g, source, main);
    }
  }

  /** The anchor is among several best common ancestors of an acceptable tip and main. */
  ghost predicate Ambiguous(g: Graph, b: Binding, base: nat) {
    && Ancestor(g, b.source, base) && (b.operation == Fresh ==> base == b.source)
    && b.anchor.Some? && b.anchor.value in Best(g, base, b.main)
    && !OnlyBest(g, base, b.main, b.anchor.value)
  }

  /** Outside the ambiguous case the two checks accept the same tips, whichever merge base each tool prefers. */
  lemma VerifiersAgree(r: Repo, choose: set<nat> -> nat, api: set<nat> -> nat, b: Binding, base: nat)
    requires IsChoice(choose) && IsChoice(api)
    requires Load(r, choose, b.main, b.source, b.line, b.operation) == Ok(b)
    requires !Ambiguous(r.graph, b, base)
    ensures VerifyApi(r.graph, api, b, base) <==> VerifyGit(r.graph, choose, b, base)
  {
    var g := r.graph;
    LineageIsAncestry(g, api, b.source, base);
    if Ancestor(g, b.source, base) && b.anchor.Some? {
      var anchor := b.anchor.value;
      var tips, forks := Best(g, base, b.main), Best(g, b.source, b.main);
      assert forks != {} && choose(forks) == anchor;
      assert tips != {} ==> choose(tips) in tips && api(tips) in tips;
      if tips == {anchor} {
        SourceInheritsAnchor(g, b.source, base, b.main, anchor);
        assert api(forks) in forks;
      }
    }
  }

  /** Tools that share one merge-base rule accept the same tips on every graph. */
  lemma SameRuleAgrees(r: Repo, choose: set<nat> -> nat, b: Binding, base: nat)
    requires IsChoice(choose) && Load(r, choose, b.main, b.source, b.line, b.operation) == Ok(b)
    ensures VerifyApi(r.graph, choose, b, base) <==> VerifyGit(r.graph, choose, b, base)
  {
    LineageIsAncestry(r.graph, choose, b.source, base);
    hide Best, Ancestor, OnLineage, IsChoice;
  }

  lemma LoadedFork(r: Repo, choose: set<nat> -> nat, b: Binding)
    requires IsChoice(choose) && Load(r, choose, b.main, b.source, b.line, b.operation) == Ok(b) && b.anchor.Some?
    ensures b.anchor.value in Best(r.graph, b.source, b.main)
  {
    hide Best;
    assert choose(Best(r.graph, b.source, b.main)) in Best(r.graph, b.source, b.main);
  }

  /** In the ambiguous case the API can answer so that only one of the two accepts. */
  lemma VerifiersCanDisagree(r: Repo, choose: set<nat> -> nat, b: Binding, base: nat) returns (api: set<nat> -> nat)
    requires IsChoice(choose)
    requires Load(r, choose, b.main, b.source, b.line, b.operation) == Ok(b)
    requires Ambiguous(r.graph, b, base)
    ensures IsChoice(api)
    ensures VerifyApi(r.graph, api, b, base) <==> !VerifyGit(r.graph, choose, b, base)
  {
    LoadedFork(r, choose, b);
    hide Best, Ancestor, OnLineage, Load, Prefer;
    var g, anchor, tips := r.graph, b.anchor.value, Best(r.graph, base, b.main);
    var other :| other in tips && other != anchor;
    assert choose(tips) in tips;
    api := Prefer(if choose(tips) == anchor then other else anchor);
    LineageIsAncestry(g, api, b.source, base);
  }

  /**
   * For a loaded binding the two checks agree whichever merge base the API
   * prefers, exactly when the anchor is not one of several best common
   * ancestors of the tip and main.
   */
  lemma VerifiersAgreeIff(r: Repo, choose: set<nat> -> nat, b: Binding, base: nat)
    requires IsChoice(choose)
    requires Load(r, choose, b.main, b.source, b.line, b.operation) == Ok(b)
    ensures (forall api: set<nat> -> nat :: IsChoice(api) ==>
               (VerifyApi(r.graph, api, b, base) <==> VerifyGit(r.graph, choose, b, base)))
       <==> !Ambiguous(r.graph, b, base)
  {
    hide Ambiguous, VerifyApi, VerifyGit, Load, IsChoice;
    if Ambiguous(r.graph, b, base) {
      var api := VerifiersCanDisagree(r, choose, b, base);
      assert IsChoice(api) && (VerifyApi(r.graph, api, b, base) <==> !VerifyGit(r.graph, choose, b, base));
    } else {
      forall api: set<nat> -> nat | IsChoice(api)
        ensures VerifyApi(r.graph, api, b, base) <==> VerifyGit(r.graph, choose, b, base)
      {
        VerifiersAgree(r, choose, api, b, base);
      }
    }
  }

  /** A choice that takes `first` wherever it can. */
  ghost function Prefer(first: nat): (choose: set<nat> -> nat)
    ensures IsChoice(choose) && forall s :: first in s ==> choose(s) == first
  {
    (s: set<nat>) => if first in s then first else if s == {} then 0 else var x :| x in s; x
  }

  /** With two best common ancestors of tip and main, each tool's preference decides. */
  lemma PreferenceDecides(g: Graph, b: Binding, base: nat, anchor: nat, other: nat)
    requires b.operation == Recover && b.anchor == Some(anchor) && Ancestor(g, b.source, base)
    requires OnlyBest(g, b.source, b.main, anchor) && {anchor, other} <= Best(g, base, b.main) && other != anchor
    ensures VerifyApi(g, Prefer(anchor), b, base) && !VerifyGit(g, Prefer(other), b, base)
  {
    LineageIsAncestry(g, Prefer(anchor), b.source, base);
    hide Prefer, Best, Ancestor, OnLineage;
    var forks := Best(g, b.source, b.main);
    assert anchor in forks && Prefer(other)(forks) in forks && Prefer(anchor)(forks) == anchor;
  }
}
