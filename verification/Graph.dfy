/**
 Reachability between servers and the length of shortest paths.
 */
module Graph {
  type Edges = set<(string, string)>

  ghost predicate Within(edges: Edges, nodes: set<string>) {
    forall e | e in edges :: e.0 in nodes && e.1 in nodes
  }

  ghost predicate Symmetric(edges: Edges) {
    forall e | e in edges :: (e.1, e.0) in edges
  }

  ghost predicate Hop(edges: Edges, p: seq<string>, i: nat)
    requires i + 1 < |p|
  {
    (p[i], p[i + 1]) in edges
  }

  ghost predicate Path(edges: Edges, p: seq<string>) {
    p != [] && forall i: nat | i + 1 < |p| :: Hop(edges, p, i)
  }

  ghost predicate PathBetween(edges: Edges, p: seq<string>, a: string, b: string) {
    Path(edges, p) && p[0] == a && p[|p| - 1] == b
  }

  ghost predicate Connected(edges: Edges, a: string, b: string) {
    exists p :: PathBetween(edges, p, a, b)
  }

  lemma ConnectedToSelf(edges: Edges, a: string)
    ensures Connected(edges, a, a)
  {
    assert PathBetween(edges, [a], a, a);
  }

  lemma AppendHop(edges: Edges, p: seq<string>, a: string, b: string, c: string)
    requires PathBetween(edges, p, a, b) && (b, c) in edges
    ensures PathBetween(edges, p + [c], a, c)
  {
    var q := p + [c];
    forall i: nat | i + 1 < |q| ensures Hop(edges, q, i) {
      if i + 1 < |p| { assert Hop(edges, p, i); }
    }
  }

  lemma ConnectedStep(edges: Edges, a: string, b: string, c: string)
    requires Connected(edges, a, b) && (b, c) in edges
    ensures Connected(edges, a, c)
  {
    var p :| PathBetween(edges, p, a, b);
    AppendHop(edges, p, a, b, c);
  }

  lemma ConnectedTransitive(edges: Edges, a: string, b: string, c: string)
    requires Connected(edges, a, b) && Connected(edges, b, c)
    ensures Connected(edges, a, c)
  {
    var p :| PathBetween(edges, p, a, b);
    var q :| PathBetween(edges, q, b, c);
    var r := p + q[1..];
    forall i: nat | i + 1 < |r| ensures Hop(edges, r, i) {
      if i + 1 < |p| { assert Hop(edges, p, i); } else { assert Hop(edges, q, i - (|p| - 1)); }
    }
    assert PathBetween(edges, r, a, c);
  }

  lemma ConnectedSymmetric(edges: Edges, a: string, b: string)
    requires Symmetric(edges) && Connected(edges, a, b)
    ensures Connected(edges, b, a)
  {
    var p :| PathBetween(edges, p, a, b);
    var r := seq(|p|, i requires 0 <= i < |p| => p[|p| - 1 - i]);
    forall i: nat | i + 1 < |r| ensures Hop(edges, r, i) {
      assert Hop(edges, p, |p| - 2 - i);
      var e := (p[|p| - 2 - i], p[|p| - 1 - i]);
      assert e in edges;
    }
    assert PathBetween(edges, r, b, a);
  }

  ghost predicate Distinct(p: seq<string>) {
    forall i, j | 0 <= i < j < |p| :: p[i] != p[j]
  }

  lemma {:induction false} DistinctFits(p: seq<string>, nodes: set<string>)
    requires Distinct(p) && forall i | 0 <= i < |p| :: p[i] in nodes
    ensures |p| <= |nodes|
  {
    if p != [] {
      DistinctFits(p[1..], nodes - {p[0]});
    }
  }

  lemma CutLoop(edges: Edges, p: seq<string>, a: string, b: string, i: nat, j: nat)
    requires PathBetween(edges, p, a, b) && i < j < |p| && p[i] == p[j]
    ensures PathBetween(edges, p[..i] + p[j..], a, b)
  {
    var r := p[..i] + p[j..];
    forall n: nat | n + 1 < |r| ensures Hop(edges, r, n) {
      if n < i { assert Hop(edges, p, n); } else { assert Hop(edges, p, n - i + j); }
    }
  }

  /** Cutting the loops out of a path leaves one that visits no server twice. */
  lemma {:induction false} CutLoops(edges: Edges, p: seq<string>, a: string, b: string) returns (q: seq<string>)
    requires PathBetween(edges, p, a, b)
    ensures PathBetween(edges, q, a, b) && Distinct(q)
    decreases |p|
  {
    if Distinct(p) {
      q := p;
    } else {
      var i, j :| 0 <= i < j < |p| && p[i] == p[j];
      CutLoop(edges, p, a, b, i, j);
      q := CutLoops(edges, p[..i] + p[j..], a, b);
    }
  }

  lemma PathStaysWithin(edges: Edges, nodes: set<string>, p: seq<string>)
    requires Path(edges, p) && Within(edges, nodes) && p[0] in nodes
    ensures forall i | 0 <= i < |p| :: p[i] in nodes
  {
    forall i | 0 <= i < |p| ensures p[i] in nodes {
      if i > 0 { assert Hop(edges, p, i - 1); }
    }
  }

  /** Connected servers are at most n - 1 edges apart. */
  lemma ShortPath(edges: Edges, nodes: set<string>, a: string, b: string) returns (p: seq<string>)
    requires Within(edges, nodes) && a in nodes && Connected(edges, a, b)
    ensures PathBetween(edges, p, a, b) && |p| - 1 <= |nodes| - 1
    ensures b in nodes
  {
    var q :| PathBetween(edges, q, a, b);
    p := CutLoops(edges, q, a, b);
    PathStaysWithin(edges, nodes, p);
    DistinctFits(p, nodes);
  }

  /** A server connected to one of the nodes is one of them. */
  lemma ConnectedWithin(edges: Edges, nodes: set<string>, a: string, b: string)
    requires Within(edges, nodes) && b in nodes && Connected(edges, a, b)
    ensures a in nodes
  {
    var p :| PathBetween(edges, p, a, b);
    if |p| > 1 { assert Hop(edges, p, 0); }
  }
}
