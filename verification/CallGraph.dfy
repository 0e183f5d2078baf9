/** The direct-call graph: `g[v]` lists the functions that function `v` calls. */
module CallGraph {

  type Graph = seq<seq<nat>>

  /** Every callee is a defined function. */
  ghost predicate WellFormed(g: Graph) {
    forall v, j :: 0 <= v < |g| && 0 <= j < |g[v]| ==> g[v][j] < |g|
  }

  ghost predicate IsPath(g: Graph, p: seq<nat>) {
    && p != []
    && (forall k :: 0 <= k < |p| ==> p[k] < |g|)
    && (forall k, l :: 0 <= k < l < |p| && l == k + 1 ==> p[l] in g[p[k]])
  }

  /** `b` can be reached from `a` along zero or more calls. */
  ghost predicate Reach(g: Graph, a: nat, b: nat) {
    exists p :: IsPath(g, p) && p[0] == a && p[|p| - 1] == b
  }

  ghost predicate Mutual(g: Graph, a: nat, b: nat) {
    Reach(g, a, b) && Reach(g, b, a)
  }

  ghost predicate Closed(g: Graph, s: set<nat>) {
    forall v, w :: v in s && v < |g| && w in g[v] ==> w in s
  }

  lemma ReachRefl(g: Graph, a: nat)
    requires a < |g|
    ensures Reach(g, a, a)
  {
    assert IsPath(g, [a]);
  }

  lemma ReachEdge(g: Graph, a: nat, b: nat)
    requires a < |g| && b < |g| && b in g[a]
    ensures Reach(g, a, b)
  {
    assert IsPath(g, [a, b]);
  }

  lemma ReachTrans(g: Graph, a: nat, b: nat, c: nat)
    requires Reach(g, a, b) && Reach(g, b, c)
    ensures Reach(g, a, c)
  {
    var p :| IsPath(g, p) && p[0] == a && p[|p| - 1] == b;
    var q :| IsPath(g, q) && q[0] == b && q[|q| - 1] == c;
    var r := p + q[1..];
    assert IsPath(g, r) by {
      forall k, l | 0 <= k < l < |r| && l == k + 1
        ensures r[l] in g[r[k]]
      {
        if k >= |p| - 1 {
          assert r[l] == q[l - |p| + 1] && r[k] == q[k - |p| + 1];
        }
      }
    }
    assert r[|r| - 1] == c;
  }

  /** Nothing outside a closed set can be reached from inside it. */
  lemma ClosedReach(g: Graph, s: set<nat>, a: nat, b: nat)
    requires Closed(g, s) && a in s && Reach(g, a, b)
    ensures b in s
  {
    var p :| IsPath(g, p) && p[0] == a && p[|p| - 1] == b;
    PathStays(g, s, p, |p| - 1);
  }

  lemma {:induction false} PathStays(g: Graph, s: set<nat>, p: seq<nat>, k: nat)
    requires Closed(g, s) && IsPath(g, p) && p[0] in s && k < |p|
    ensures p[k] in s
  {
    if k > 0 {
      PathStays(g, s, p, k - 1);
      assert p[k] in g[p[k - 1]];
    }
  }
}
