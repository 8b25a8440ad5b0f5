/** Directories reachable from the workspace root (the empty path) along listed entries. */
module Reach {

  type Edges = (string, string) -> bool

  ghost predicate IsChain(edges: Edges, chain: seq<string>) {
    && chain != [] && chain[0] == ""
    && forall i :: 0 < i < |chain| ==> edges(chain[i - 1], chain[i])
  }

  ghost predicate Reachable(edges: Edges, dir: string) {
    exists chain :: IsChain(edges, chain) && chain[|chain| - 1] == dir
  }

  lemma RootReachable(edges: Edges)
    ensures Reachable(edges, "")
  {
    assert IsChain(edges, [""]);
  }

  lemma StepReachable(edges: Edges, from: string, to: string)
    requires Reachable(edges, from) && edges(from, to)
    ensures Reachable(edges, to)
  {
    var chain :| IsChain(edges, chain) && chain[|chain| - 1] == from;
    assert IsChain(edges, chain + [to]);
  }

  lemma ReachedFrom(edges: Edges, dir: string) returns (from: string)
    requires Reachable(edges, dir) && dir != ""
    ensures edges(from, dir)
  {
    var chain :| IsChain(edges, chain) && chain[|chain| - 1] == dir;
    from := chain[|chain| - 2];
  }

  /** A set that holds the root and every successor of its members holds everything reachable. */
  lemma ClosedSetCovers(edges: Edges, closed: set<string>, dir: string)
    requires "" in closed
    requires forall from, to :: from in closed && edges(from, to) ==> to in closed
    requires Reachable(edges, dir)
    ensures dir in closed
  {
    var chain :| IsChain(edges, chain) && chain[|chain| - 1] == dir;
    ChainInside(edges, closed, chain, |chain| - 1);
  }

  lemma {:induction false} ChainInside(edges: Edges, closed: set<string>, chain: seq<string>, i: nat)
    requires "" in closed
    requires forall from, to :: from in closed && edges(from, to) ==> to in closed
    requires IsChain(edges, chain) && i < |chain|
    ensures chain[i] in closed
  {
    if i == 0 {
    } else {
      ChainInside(edges, closed, chain, i - 1);
      assert edges(chain[i - 1], chain[i]);
    }
  }
}
