/**
 * One concrete repository with a support line: its binding loads, recovery
 * outlives an advance of main, and on a tip that merged part of main the two
 * verifiers disagree when they prefer different merge bases.
 */
module CrissCross {
  import opened CommitGraph
  import opened Provenance
  import opened ProvenanceExact
  import opened ReleasePolicy
  import opened Text
  import opened Wrappers

  const LINE := Support(0, 5)
  const POLICY_PATH := "ci"

  /** Main is 0, 1, 4, 6, 7 and the support branch 1, 3, 5; commit 2 was merged into both, 3 into main at 7. */
  const HISTORY := Graph(map[
    0 := {}, 1 := {0}, 2 := {0}, 3 := {1}, 4 := {1, 2}, 5 := {3, 2}, 6 := {4}, 7 := {6, 3}])

  const MAIN_INVENTORY := Inventory(1, BaseRef(LINE), 1, 2, true, map[POLICY_PATH := 20])
  const SOURCE_INVENTORY := Inventory(1, BaseRef(LINE), 1, 4, true, map[POLICY_PATH := 20])

  function Tree(inventory: nat): map<string, Entry> {
    map[InventoryPath(LINE) := Entry(Regular, inventory), POLICY_PATH := Entry(Regular, 20)]
  }

  const REPO := Repo(
    HISTORY, map[3 := Tree(11), 4 := Tree(10), 6 := Tree(10)],
    map[10 := MAIN_INVENTORY, 11 := SOURCE_INVENTORY], map[])

  const BINDING := Binding(LINE, Recover, 4, 3, Some(1))

  lemma Ancestors()
    ensures forall c :: Ancestor(HISTORY, c, 0) <==> c in {0}
    ensures forall c :: Ancestor(HISTORY, c, 1) <==> c in {0, 1}
    ensures forall c :: Ancestor(HISTORY, c, 2) <==> c in {0, 2}
    ensures forall c :: Ancestor(HISTORY, c, 3) <==> c in {0, 1, 3}
    ensures forall c :: Ancestor(HISTORY, c, 4) <==> c in {0, 1, 2, 4}
    ensures forall c :: Ancestor(HISTORY, c, 5) <==> c in {0, 1, 2, 3, 5}
  {
    var g := HISTORY;
    assert forall c :: Ancestor(g, c, 0) <==> c == 0;
    assert forall c :: Ancestor(g, c, 1) <==> c == 1 || Ancestor(g, c, 0) by { assert 0 in g.parents[1]; }
    assert forall c :: Ancestor(g, c, 2) <==> c == 2 || Ancestor(g, c, 0) by { assert 0 in g.parents[2]; }
    assert forall c :: Ancestor(g, c, 3) <==> c == 3 || Ancestor(g, c, 1) by { assert 1 in g.parents[3]; }
    assert forall c :: Ancestor(g, c, 4) <==> c == 4 || Ancestor(g, c, 1) || Ancestor(g, c, 2) by {
      assert 1 in g.parents[4] && 2 in g.parents[4];
    }
    assert forall c :: Ancestor(g, c, 5) <==> c == 5 || Ancestor(g, c, 3) || Ancestor(g, c, 2) by {
      assert 3 in g.parents[5] && 2 in g.parents[5];
    }
  }

  lemma ForkBase()
    ensures OnlyBest(HISTORY, 3, 4, 1)
  {
    Ancestors();
    assert 0 in HISTORY.parents && 1 in HISTORY.parents;
    hide Ancestor, HISTORY;
    assert CommonAncestors(HISTORY, 3, 4) == {0, 1};
  }

  lemma TipCommon()
    ensures CommonAncestors(HISTORY, 5, 4) == {0, 1, 2}
  {
    Ancestors();
    assert 0 in HISTORY.parents && 1 in HISTORY.parents && 2 in HISTORY.parents;
    hide Ancestor, HISTORY;
  }

  lemma Forked()
    ensures Ancestor(HISTORY, 0, 1) && !Ancestor(HISTORY, 1, 0) && !Ancestor(HISTORY, 2, 0)
    ensures !Ancestor(HISTORY, 1, 2) && !Ancestor(HISTORY, 2, 1)
  {
    Ancestors();
    hide Ancestor, HISTORY;
  }

  lemma TipBases()
    ensures Best(HISTORY, 5, 4) == {1, 2}
  {
    TipCommon();
    Forked();
    hide Ancestor, HISTORY, CommonAncestors;
  }

  lemma Paths()
    ensures StartsWith(InventoryPath(LINE), INVENTORY_DIR) && !StartsWith(POLICY_PATH, INVENTORY_DIR)
    ensures RequirePath(POLICY_PATH)
  {
    assert InventoryPath(LINE)[..|INVENTORY_DIR|] == INVENTORY_DIR;
    assert POLICY_PATH[0] != INVENTORY_DIR[0];
    SplitWhole(POLICY_PATH, '/');
  }

  lemma Inventories()
    ensures ReadInventory(REPO, 4, LINE) == ReadInventory(REPO, 6, LINE) == Ok(MAIN_INVENTORY)
    ensures ReadInventory(REPO, 3, LINE) == Ok(SOURCE_INVENTORY)
    ensures ActiveInventories(REPO, 4) == ActiveInventories(REPO, 6) == {InventoryPath(LINE)}
    ensures BlobAt(REPO, 3, POLICY_PATH) == BlobAt(REPO, 4, POLICY_PATH) == Ok(20)
  {
    Paths();
    hide RequirePath, BaseRef;
    assert InventoryPath(LINE) != POLICY_PATH;
    assert |map[POLICY_PATH := 20 as nat]| == 1;
    assert ActiveInventories(REPO, 4) == {InventoryPath(LINE)};
    assert ActiveInventories(REPO, 6) == {InventoryPath(LINE)};
  }

  lemma Chain()
    ensures HistoricalChain(REPO, 4, 3, LINE, SOURCE_INVENTORY)
  {
    Inventories();
    Ancestors();
    assert 4 in REPO.trees && InventoryPath(LINE) in REPO.trees[4] && REPO.graph == HISTORY;
    hide Ancestor, HISTORY, REPO, ReadInventory, BlobAt, InventoryPath, BaseRef;
    assert SOURCE_INVENTORY.blobs.Keys == MAIN_INVENTORY.blobs.Keys == {POLICY_PATH};
    assert HistoricalPaths(REPO, LINE, SOURCE_INVENTORY) == Ok({POLICY_PATH});
  }

  /** The binding of source 3 loads for main 4 whichever merge base git prefers. */
  lemma BindingLoads(choose: set<nat> -> nat)
    requires IsChoice(choose)
    ensures Load(REPO, choose, 4, 3, LINE, Recover) == Ok(BINDING)
  {
    Inventories();
    Ancestors();
    ForkBase();
    Chain();
    assert choose({1}) in {1};
    assert REPO.graph == HISTORY;
    hide Ancestor, HISTORY, REPO, ReadInventory, ActiveInventories, HistoricalChain, Best, InventoryPath;
  }

  /** Recovery of the same source still loads after main advanced to 6. */
  lemma RecoveryOutlivesAdvance(choose: set<nat> -> nat)
    requires IsChoice(choose)
    ensures Load(REPO, choose, 6, 3, LINE, Recover) == Ok(BINDING.(main := 6))
  {
    BindingLoads(choose);
    Inventories();
    assert LinearExtension(HISTORY, 4, 6) by { assert 4 in HISTORY.parents[6] && LinearExtension(HISTORY, 4, 4); }
    assert REPO.graph == HISTORY;
    hide HISTORY, REPO, ReadInventory, ActiveInventories, Load, LinearExtension;
    RecoveryStable(REPO, choose, 4, 6, 3, LINE);
  }

  /** A loaded binding and a tip on which the API check accepts and the local check rejects. */
  lemma VerifiersDisagree()
    ensures HISTORY.Valid() && IsChoice(Prefer(1)) && IsChoice(Prefer(2))
    ensures Load(REPO, Prefer(2), 4, 3, LINE, Recover) == Ok(BINDING)
    ensures VerifyApi(REPO.graph, Prefer(1), BINDING, 5) && !VerifyGit(REPO.graph, Prefer(2), BINDING, 5)
  {
    assert HISTORY.Valid() && REPO.graph == HISTORY;
    BindingLoads(Prefer(2));
    Ancestors();
    ForkBase();
    TipBases();
    hide Ancestor, HISTORY, REPO, Load, Prefer, VerifyApi, VerifyGit;
    PreferenceDecides(REPO.graph, BINDING, 5, 1, 2);
  }

  /** After main moved on from the recorded policy commit, the source also loads as a fresh one. */
  lemma FreshLoadsAfterAdvance(choose: set<nat> -> nat)
    requires IsChoice(choose)
    ensures Load(REPO, choose, 6, 3, LINE, Fresh) == Ok(BINDING.(main := 6, operation := Fresh))
  {
    RecoveryOutlivesAdvance(choose);
    Inventories();
    CurrentBlobs();
    RecoverIff(REPO, choose, 6, 3, LINE);
    FreshIff(REPO, choose, 6, 3, LINE);
    hide Load, REPO, HISTORY, ReadInventory, BlobAt, Recoverable;
  }

  lemma CurrentBlobs()
    ensures BlobAt(REPO, 6, POLICY_PATH) == BlobAt(REPO, 3, POLICY_PATH) == Ok(20)
  {
    Paths();
    hide RequirePath, BaseRef;
    assert InventoryPath(LINE) != POLICY_PATH;
  }
}
