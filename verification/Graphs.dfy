/** Reachability in directed graphs given by their roots and edges. */
module Graphs {

  ghost predicate IsPath<N(!new)>(root: N -> bool, edge: (N, N) -> bool, path: seq<N>) {
    path != [] && root(path[0]) && forall k | 0 <= k < |path| - 1 :: edge(path[k], path[k + 1])
  }

  ghost predicate Reachable<N(!new)>(root: N -> bool, edge: (N, N) -> bool, node: N) {
    exists path :: IsPath(root, edge, path) && path[|path| - 1] == node
  }

  lemma RootIsReached<N(!new)>(root: N -> bool, edge: (N, N) -> bool, node: N)
    requires root(node)
    ensures Reachable(root, edge, node)
  {
    assert IsPath(root, edge, [node]);
    assert [node][|[node]| - 1] == node;
  }

  lemma StepIsReached<N(!new)>(root: N -> bool, edge: (N, N) -> bool, node: N, next: N)
    requires Reachable(root, edge, node) && edge(node, next)
    ensures Reachable(root, edge, next)
  {
    var path :| IsPath(root, edge, path) && path[|path| - 1] == node;
    var longer := path + [next];
    forall k | 0 <= k < |longer| - 1 ensures edge(longer[k], longer[k + 1]) {
      if k < |path| - 1 {
        assert edge(path[k], path[k + 1]);
      }
    }
    assert IsPath(root, edge, longer);
  }

  /** A set that holds the roots and is closed under the edges. */
  ghost predicate Closed<N(!new)>(root: N -> bool, edge: (N, N) -> bool, seen: set<N>) {
    && (forall n | root(n) :: n in seen)
    && (forall m, n | m in seen && edge(m, n) :: n in seen)
  }

  lemma {:induction false} PathIsSeen<N(!new)>(root: N -> bool, edge: (N, N) -> bool, seen: set<N>, path: seq<N>, k: nat)
    requires IsPath(root, edge, path) && Closed(root, edge, seen) && k < |path|
    ensures path[k] in seen
  {
    if k > 0 {
      PathIsSeen(root, edge, seen, path, k - 1);
      assert edge(path[k - 1], path[k - 1 + 1]);
    }
  }

  lemma ReachableIsSeen<N(!new)>(root: N -> bool, edge: (N, N) -> bool, seen: set<N>, node: N)
    requires Reachable(root, edge, node) && Closed(root, edge, seen)
    ensures node in seen
  {
    var path :| IsPath(root, edge, path) && path[|path| - 1] == node;
    PathIsSeen(root, edge, seen, path, |path| - 1);
  }

  /** What is reached from a reached node is reached. */
  lemma {:induction false} Onward<N(!new)>(root: N -> bool, via: N -> bool, edge: (N, N) -> bool, path: seq<N>, k: nat)
    requires IsPath(via, edge, path) && Reachable(root, edge, path[0]) && k < |path|
    ensures Reachable(root, edge, path[k])
  {
    if k > 0 {
      Onward(root, via, edge, path, k - 1);
      assert edge(path[k - 1], path[k - 1 + 1]);
      StepIsReached(root, edge, path[k - 1], path[k]);
    }
  }
}
