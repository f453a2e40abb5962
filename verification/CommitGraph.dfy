/**
 * Commit history as an acyclic graph. Commits are numbered so that parents
 * come before children, which every finite history allows; the numbers carry
 * no other meaning.
 */
module CommitGraph {

  datatype Graph = Graph(parents: map<nat, set<nat>>)
  {
    ghost predicate Valid() {
      forall c, p :: c in parents && p in parents[c] ==> p in parents && p < c
    }
  }

  /** `git merge-base --is-ancestor`: a commit is its own ancestor. */
  predicate Ancestor(g: Graph, older: nat, newer: nat) {
    && older in g.parents && newer in g.parents
    && (older == newer
        || exists p :: p in g.parents[newer] && p < newer && Ancestor(g, older, p))
  }

  lemma {:induction false} AncestorOrder(g: Graph, a: nat, b: nat)
    ensures Ancestor(g, a, b) ==> a <= b
  {
    if Ancestor(g, a, b) && a != b {
      var p :| p in g.parents[b] && p < b && Ancestor(g, a, p);
      AncestorOrder(g, a, p);
    }
  }

  lemma {:induction false} AncestorTransitive(g: Graph, a: nat, b: nat, c: nat)
    requires Ancestor(g, a, b) && Ancestor(g, b, c)
    ensures Ancestor(g, a, c)
    decreases c
  {
    if b != c {
      var p :| p in g.parents[c] && p < c && Ancestor(g, b, p);
      AncestorTransitive(g, a, b, p);
    }
  }

  lemma AncestorAntisymmetric(g: Graph, a: nat, b: nat)
    requires Ancestor(g, a, b) && Ancestor(g, b, a)
    ensures a == b
  {
    AncestorOrder(g, a, b);
    AncestorOrder(g, b, a);
  }

  function CommonAncestors(g: Graph, a: nat, b: nat): set<nat> {
    set c | c in g.parents && Ancestor(g, c, a) && Ancestor(g, c, b)
  }

  /** The common ancestors that no other common ancestor descends from. */
  function Best(g: Graph, a: nat, b: nat): set<nat> {
    set c | c in CommonAncestors(g, a, b)
            && forall d :: d in CommonAncestors(g, a, b) && Ancestor(g, c, d) ==> d == c
  }

  lemma BestIsSymmetric(g: Graph, a: nat, b: nat)
    ensures Best(g, a, b) == Best(g, b, a)
  {
    assert CommonAncestors(g, a, b) == CommonAncestors(g, b, a);
  }

  /**
   * A tool's choice among several best common ancestors. Git prints the one
   * with the newest commit date, so its answer depends on that set alone.
   */
  ghost predicate IsChoice(choose: set<nat> -> nat) {
    forall s: set<nat> :: s != {} ==> choose(s) in s
  }

  /** `git merge-base` and the comparison API's merge base: none without a common ancestor. */
  predicate MergeBaseIs(g: Graph, choose: set<nat> -> nat, a: nat, b: nat, answer: nat) {
    Best(g, a, b) != {} && choose(Best(g, a, b)) == answer
  }

  /** Every common ancestor lies below a best one. */
  lemma {:induction false} BestAbove(g: Graph, a: nat, b: nat, c: nat) returns (best: nat)
    requires c in CommonAncestors(g, a, b)
    ensures best in Best(g, a, b) && Ancestor(g, c, best)
    decreases a - c
  {
    AncestorOrder(g, c, a);
    if c in Best(g, a, b) {
      best := c;
    } else {
      var d :| d in CommonAncestors(g, a, b) && Ancestor(g, c, d) && d != c;
      AncestorOrder(g, c, d);
      AncestorOrder(g, d, a);
      best := BestAbove(g, a, b, d);
      AncestorTransitive(g, c, d, best);
    }
  }

  /** An ancestor is the only best common ancestor of itself and its descendant. */
  lemma AncestorIsOnlyBest(g: Graph, older: nat, newer: nat)
    requires older in g.parents
    ensures Ancestor(g, older, newer) <==> Best(g, older, newer) == {older}
    ensures Ancestor(g, older, newer) <==> older in Best(g, older, newer)
  {
    if Ancestor(g, older, newer) {
      assert older in CommonAncestors(g, older, newer);
      forall c | c in CommonAncestors(g, older, newer) && Ancestor(g, older, c) ensures c == older {
        AncestorAntisymmetric(g, older, c);
      }
    }
  }

  /** Whether every choice of merge base must be `answer`. */
  predicate OnlyBest(g: Graph, a: nat, b: nat, answer: nat) { Best(g, a, b) == {answer} }
}
