/** Planning a cycle join: which probe nodes and which intersect nodes the join uses. */
module CyclePlanner {

  type Node = string
  type Path = seq<Node>
  /** For every probe node, the intersect nodes reached from it and the path to each. */
  type Building = map<Node, map<Node, Path>>

  function ProbesOf(g: Building, v: Node): set<Node> {
    set p | p in g && v in g[p]
  }

  function Pairs(g: Building): set<(Node, Node)> {
    set p, v | p in g && v in g[p] :: (p, v)
  }

  /** What the operator demands of its connections: at least two on both sides. */
  ghost predicate Joinable(g: Building) {
    && (forall p :: p in g ==> |g[p]| >= 2)
    && (forall p, v :: p in g && v in g[p] ==> |ProbesOf(g, v)| >= 2)
  }

  /** A part of the connections, by the same paths. */
  ghost predicate PartOf(h: Building, g: Building) {
    forall p :: p in h ==> p in g && forall v :: v in h[p] ==> v in g[p] && h[p][v] == g[p][v]
  }

  lemma {:induction false} SubsetSmaller<T>(a: set<T>, b: set<T>)
    requires a <= b
    ensures |a| <= |b|
    ensures a != b ==> |a| < |b|
  {
    assert |b| == |a| + |b - a| by { assert b == a + (b - a) && a !! b - a; }
    if a != b {
      var x :| x in b && x !in a;
      assert x in b - a;
    }
  }

  function Lonely(g: Building): set<Node> {
    set p | p in g && |g[p]| < 2
  }

  function Weak(g: Building): set<Node> {
    set p, v | p in g && v in g[p] && |ProbesOf(g, v)| < 2 :: v
  }

  function Without(g: Building, probes: set<Node>, weak: set<Node>): Building {
    map p | p in g && p !in probes :: g[p] - weak
  }

  /** One round: probe nodes with fewer than two connections go, and intersect nodes that had fewer
      than two at the start of the round. Also whether that removed anything. */
  function Round(g: Building): (r: (Building, bool))
    ensures PartOf(r.0, g)
  {
    var probes, weak := Lonely(g), Weak(g);
    (Without(g, probes, weak), probes != {} || exists p :: p in g && p !in probes && g[p].Keys * weak != {})
  }

  lemma {:induction false} RoundShrinks(g: Building)
    requires Round(g).1
    ensures var r := Round(g).0; |r.Keys| + |Pairs(r)| < |g.Keys| + |Pairs(g)|
  {
    var r := Round(g).0;
    assert r.Keys <= g.Keys && Pairs(r) <= Pairs(g);
    SubsetSmaller(r.Keys, g.Keys);
    SubsetSmaller(Pairs(r), Pairs(g));
    if Lonely(g) != {} {
      var p :| p in Lonely(g);
      assert p in g.Keys && p !in r.Keys;
    } else {
      var p :| p in g && p !in Lonely(g) && g[p].Keys * Weak(g) != {};
      var v :| v in g[p].Keys * Weak(g);
      assert (p, v) in Pairs(g) && (p, v) !in Pairs(r);
    }
  }

  /** Nothing that some joinable part needs is removed. */
  lemma {:induction false} RoundKeeps(h: Building, g: Building)
    requires Joinable(h) && PartOf(h, g)
    ensures PartOf(h, Round(g).0)
  {
    forall p | p in h ensures |g[p]| >= 2 {
      assert h[p].Keys <= g[p].Keys;
      SubsetSmaller(h[p].Keys, g[p].Keys);
      assert |h[p].Keys| == |h[p]| && |g[p].Keys| == |g[p]|;
    }
    forall p, v | p in h && v in h[p] ensures |ProbesOf(g, v)| >= 2 {
      assert ProbesOf(h, v) <= ProbesOf(g, v);
      SubsetSmaller(ProbesOf(h, v), ProbesOf(g, v));
    }
  }

  lemma {:induction false} WithoutNothing(g: Building, weak: set<Node>)
    requires forall p :: p in g ==> g[p].Keys !! weak
    ensures Without(g, {}, weak) == g
  {
    forall p | p in g ensures g[p] - weak == g[p] {
      assert forall v :: v in g[p] ==> v in g[p].Keys;
    }
  }

  lemma {:induction false} RoundEnds(g: Building)
    requires !Round(g).1
    ensures Joinable(g) && Round(g).0 == g
  {
    forall p | p in g ensures |g[p]| >= 2 && g[p].Keys !! Weak(g) {
      assert p !in Lonely(g);
      assert g[p].Keys * Weak(g) == {};
    }
    WithoutNothing(g, Weak(g));
    forall p, v | p in g && v in g[p] ensures |ProbesOf(g, v)| >= 2 {
      assert v in g[p].Keys;
      assert v !in Weak(g);
    }
  }

  /** Removes weak nodes until nothing changes. What is left meets the operator's demand, and it is
      the largest part that does: every joinable part of the connections is in it. */
  method Prune(g: Building) returns (r: Building)
    ensures Joinable(r) && PartOf(r, g)
    ensures forall h :: Joinable(h) && PartOf(h, g) ==> PartOf(h, r)
  {
    r := g;
    var removal := true;
    while removal
      invariant PartOf(r, g) && (!removal ==> Joinable(r))
      invariant forall h :: Joinable(h) && PartOf(h, g) ==> PartOf(h, r)
      decreases removal, |r.Keys| + |Pairs(r)|
    {
      var next := Round(r);
      forall h | Joinable(h) && PartOf(h, g) ensures PartOf(h, next.0) {
        RoundKeeps(h, r);
      }
      if next.1 { RoundShrinks(r); } else { RoundEnds(r); }
      r, removal := next.0, next.1;
    }
  }
}
