/** Exactly which sources load and which tips pass the checks of a loaded binding. */
module ProvenanceExact {
  import opened CommitGraph
  import opened Decimal
  import opened Provenance
  import opened ReleasePolicy
  import opened Text
  import opened Wrappers

  // ----- Reading one commit -----

  /** The allowed paths: components of letters, digits, dots, underscores and dashes, outside the inventories. */
  lemma RequirePathIff(path: string)
    ensures RequirePath(path) <==>
              && Normalized(path) && !StartsWith(path, ".github/support-lines/")
              && forall c :: c in path ==> IsDigit(c) || 'a' <= c <= 'z' || 'A' <= c <= 'Z' || c in {'-', '.', '_', '/'}
  {
    if Normalized(path) {
      NormalizedEnds(path);
    }
    hide Normalized;
    assert StartsWith(path, "/") ==> path[0] == '/';
  }

  /** The path is allowed and names this object, a regular or executable file. */
  predicate BlobIs(r: Repo, commit: nat, path: string, oid: nat) {
    && RequirePath(path)
    && commit in r.trees && path in r.trees[commit]
    && r.trees[commit][path] in {Entry(Regular, oid), Entry(Executable, oid)}
  }

  lemma BlobIff(r: Repo, commit: nat, path: string, oid: nat)
    ensures BlobAt(r, commit, path) == Ok(oid) <==> BlobIs(r, commit, path, oid)
  {
    hide RequirePath;
  }

  /** The line's inventory file of the commit is regular and decodes to this well-formed inventory. */
  predicate InventoryIs(r: Repo, commit: nat, line: ReleaseLine, value: Inventory)
    requires line.Support?
  {
    var path := ".github/support-lines/" + Print(line.major) + "." + Print(line.minor) + ".json";
    && commit in r.trees && path in r.trees[commit] && r.trees[commit][path].mode == Regular
    && r.trees[commit][path].oid in r.inventories && r.inventories[r.trees[commit][path].oid] == value
    && value.schema == 1 && value.baseRef == BaseRef(line)
    && 1 <= |value.blobs| <= 256 && forall p :: p in value.blobs ==> RequirePath(p)
  }

  lemma InventoryIff(r: Repo, commit: nat, line: ReleaseLine, value: Inventory)
    requires line.Support?
    ensures ReadInventory(r, commit, line) == Ok(value) <==> InventoryIs(r, commit, line, value)
  {
    hide RequirePath, BaseRef;
  }

  // ----- Loading -----

  /** Main's tree holds the inventory of this line and no other. */
  predicate OnlyInventory(r: Repo, main: nat, line: ReleaseLine)
    requires line.Support?
  {
    && main in r.trees && InventoryPath(line) in r.trees[main]
    && forall p :: p in r.trees[main] && StartsWith(p, INVENTORY_DIR) ==> p == InventoryPath(line)
  }

  /** The recorded policy commit demanded exactly the recorded paths, by its inventory or else by its seed. */
  predicate PolicyDemands(r: Repo, line: ReleaseLine, recorded: Inventory)
    requires line.Support?
  {
    && recorded.policy in r.trees
    && if InventoryPath(line) in r.trees[recorded.policy] then
         var historical := ReadInventory(r, recorded.policy, line);
         && historical.Ok? && historical.value.anchor == recorded.anchor
         && historical.value.enforce == recorded.enforce
         && historical.value.blobs.Keys == recorded.blobs.Keys
       else
         && recorded.enforce && Seedable(r, recorded.policy)
         && recorded.blobs.Keys == set p | p in SeedPaths(r, recorded.policy).value
  }

  /** What recovery demands of main and source, in terms of their inventories and blobs. */
  predicate Recoverable(r: Repo, choose: set<nat> -> nat, main: nat, source: nat, line: ReleaseLine)
    requires line.Support?
  {
    && OnlyInventory(r, main, line)
    && ReadInventory(r, main, line).Ok? && ReadInventory(r, source, line).Ok?
    && var active, recorded := ReadInventory(r, main, line).value, ReadInventory(r, source, line).value;
       && recorded.anchor == active.anchor
       && Ancestor(r.graph, active.anchor, source) && Ancestor(r.graph, active.anchor, main)
       && Best(r.graph, source, main) != {} && choose(Best(r.graph, source, main)) == active.anchor
       && Ancestor(r.graph, recorded.policy, main)
       && PolicyDemands(r, line, recorded)
       && forall p :: p in recorded.blobs ==>
            && BlobAt(r, source, p) == Ok(recorded.blobs[p])
            && BlobAt(r, recorded.policy, p) == Ok(recorded.blobs[p])
  }

  lemma HistoricalIff(r: Repo, line: ReleaseLine, recorded: Inventory)
    requires line.Support?
    ensures HistoricalPaths(r, line, recorded) == Ok(recorded.blobs.Keys) <==> PolicyDemands(r, line, recorded)
  {
    if recorded.policy in r.trees {
      SeedBlobsOf(r, recorded.policy);
    }
    hide ReadInventory, SeedBlobs, Seedable, InventoryPath;
  }

  lemma OnlyInventoryIff(r: Repo, main: nat, line: ReleaseLine)
    requires line.Support?
    ensures ActiveInventories(r, main) == {InventoryPath(line)} <==> OnlyInventory(r, main, line)
  {
    assert InventoryPath(line)[..|INVENTORY_DIR|] == INVENTORY_DIR;
    hide InventoryPath;
    if ActiveInventories(r, main) == {InventoryPath(line)} {
      assert InventoryPath(line) in ActiveInventories(r, main);
      assert forall p :: p in r.trees[main] && StartsWith(p, INVENTORY_DIR) ==> p in ActiveInventories(r, main);
    }
  }

  /** Recovery accepts exactly the recoverable sources. */
  lemma RecoverIff(r: Repo, choose: set<nat> -> nat, main: nat, source: nat, line: ReleaseLine)
    requires line.Support?
    ensures Load(r, choose, main, source, line, Recover).Ok? <==> Recoverable(r, choose, main, source, line)
    ensures Recoverable(r, choose, main, source, line) ==>
              Load(r, choose, main, source, line, Recover)
                == Ok(Binding(line, Recover, main, source, Some(ReadInventory(r, main, line).value.anchor)))
  {
    OnlyInventoryIff(r, main, line);
    if ReadInventory(r, source, line).Ok? {
      HistoricalIff(r, line, ReadInventory(r, source, line).value);
    }
    hide ReadInventory, PolicyDemands, HistoricalPaths, OnlyInventory, ActiveInventories, Best, Ancestor, BlobAt;
  }

  /** An enforcing main inventory and the source's require the same paths and find the same blobs there. */
  predicate CarriesCurrent(r: Repo, main: nat, source: nat, line: ReleaseLine)
    requires line.Support? && ReadInventory(r, main, line).Ok? && ReadInventory(r, source, line).Ok?
  {
    var active, recorded := ReadInventory(r, main, line).value, ReadInventory(r, source, line).value;
    active.enforce ==>
      && recorded.enforce && recorded.blobs.Keys == active.blobs.Keys
      && forall p :: p in active.blobs ==> BlobAt(r, source, p).Ok? && BlobAt(r, main, p) == BlobAt(r, source, p)
  }

  /**
   * A fresh source is accepted exactly when recovery of it would be, and under
   * an enforcing main inventory it also carries main's current blobs.
   */
  lemma FreshIff(r: Repo, choose: set<nat> -> nat, main: nat, source: nat, line: ReleaseLine)
    requires line.Support?
    ensures Load(r, choose, main, source, line, Fresh).Ok? <==>
              Recoverable(r, choose, main, source, line) && CarriesCurrent(r, main, source, line)
    ensures Load(r, choose, main, source, line, Fresh).Ok? ==>
              Load(r, choose, main, source, line, Fresh)
                == Ok(Binding(line, Fresh, main, source, Some(ReadInventory(r, main, line).value.anchor)))
  {
    RecoverIff(r, choose, main, source, line);
    FreshLoads(r, choose, main, source, line);
    if Recoverable(r, choose, main, source, line) {
      ContentIff(r, choose, main, source, line);
    }
    hide Load, Recoverable, CarriesCurrent, FreshContent, ReadInventory;
  }

  lemma FreshLoads(r: Repo, choose: set<nat> -> nat, main: nat, source: nat, line: ReleaseLine)
    requires line.Support?
    ensures Load(r, choose, main, source, line, Fresh).Ok? <==>
              && Load(r, choose, main, source, line, Recover).Ok?
              && FreshContent(r, main, ReadInventory(r, main, line).value, ReadInventory(r, source, line).value)
    ensures Load(r, choose, main, source, line, Fresh).Ok? ==>
              Load(r, choose, main, source, line, Fresh)
                == Ok(Load(r, choose, main, source, line, Recover).value.(operation := Fresh))
  {
    hide ReadInventory, HistoricalChain, ActiveInventories, Best, Ancestor, FreshContent, MergeBaseIs;
  }

  lemma ContentIff(r: Repo, choose: set<nat> -> nat, main: nat, source: nat, line: ReleaseLine)
    requires line.Support? && Recoverable(r, choose, main, source, line)
    ensures FreshContent(r, main, ReadInventory(r, main, line).value, ReadInventory(r, source, line).value)
       <==> CarriesCurrent(r, main, source, line)
  {
    hide ReadInventory, PolicyDemands, OnlyInventory, Best, Ancestor, BlobAt;
    var recorded := ReadInventory(r, source, line).value;
    assert forall p :: p in recorded.blobs.Keys <==> p in recorded.blobs;
  }

  /** A source of the main line always loads, without an anchor. */
  lemma MainLoads(r: Repo, choose: set<nat> -> nat, main: nat, source: nat, operation: Operation)
    ensures Load(r, choose, main, source, Main, operation) == Ok(Binding(Main, operation, main, source, None))
  {
  }

  // ----- The two checks -----

  /** The API check, by ancestry and merge bases. */
  lemma ApiIff(g: Graph, api: set<nat> -> nat, b: Binding, base: nat)
    requires IsChoice(api)
    ensures VerifyApi(g, api, b, base) <==>
              && (b.operation == Fresh ==> base == b.source)
              && Ancestor(g, b.source, base)
              && (b.anchor.Some? ==>
                    && Best(g, b.source, b.main) != {} && api(Best(g, b.source, b.main)) == b.anchor.value
                    && Best(g, base, b.main) != {} && api(Best(g, base, b.main)) == b.anchor.value)
  {
    LineageIsAncestry(g, api, b.source, base);
    hide Best, Ancestor, OnLineage, IsChoice;
  }

  /** The local check, by ancestry and the tip's merge base alone. */
  lemma GitIff(g: Graph, choose: set<nat> -> nat, b: Binding, base: nat)
    ensures VerifyGit(g, choose, b, base) <==>
              && (b.operation == Fresh ==> base == b.source)
              && Ancestor(g, b.source, base)
              && (b.anchor.Some? ==>
                    Best(g, base, b.main) != {} && choose(Best(g, base, b.main)) == b.anchor.value)
  {
    hide Best, Ancestor;
  }
}
