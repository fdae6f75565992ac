/** Finite directed graphs given by their set of edges: walks, reachability, cycles,
    and the rank that an acyclic graph induces on its nodes. */
module Digraph {
  type Id = string
  type Edges = set<(Id, Id)>

  /** A walk names the nodes it visits, first to last; one node is a walk of no edges. */
  ghost predicate Walk(E: Edges, p: seq<Id>) {
    |p| > 0 && forall i {:trigger p[i]} :: 0 <= i < |p| - 1 ==> (p[i], p[i + 1]) in E
  }

  ghost predicate WalkFromTo(E: Edges, p: seq<Id>, a: Id, b: Id) {
    Walk(E, p) && p[0] == a && p[|p| - 1] == b
  }

  /** b is a or can be reached from a. */
  ghost predicate Reach(E: Edges, a: Id, b: Id) {
    exists p :: WalkFromTo(E, p, a, b)
  }

  /** b can be reached from a over at least one edge. */
  ghost predicate Plus(E: Edges, a: Id, b: Id) {
    exists c :: (a, c) in E && Reach(E, c, b)
  }

  ghost predicate Acyclic(E: Edges) {
    forall v :: !Plus(E, v, v)
  }

  /** No cycle can be reached from a. */
  ghost predicate AcyclicBelow(E: Edges, a: Id) {
    forall v :: Reach(E, a, v) ==> !Plus(E, v, v)
  }

  ghost predicate Closed(E: Edges, S: iset<Id>) {
    forall x, y :: (x, y) in E && x in S ==> y in S
  }

  lemma ReachRefl(E: Edges, a: Id)
    ensures Reach(E, a, a)
  {
    assert WalkFromTo(E, [a], a, a);
  }

  lemma ReachStep(E: Edges, a: Id, b: Id, c: Id)
    requires (a, b) in E && Reach(E, b, c)
    ensures Reach(E, a, c)
  {
    var p :| WalkFromTo(E, p, b, c);
    var q := [a] + p;
    forall i | 0 <= i < |q| - 1
      ensures (q[i], q[i + 1]) in E
    {
      if i > 0 {
        assert q[i] == p[i - 1] && q[i + 1] == p[i];
      }
    }
    assert WalkFromTo(E, q, a, c);
  }

  lemma ReachEdge(E: Edges, a: Id, b: Id)
    requires (a, b) in E
    ensures Reach(E, a, b)
  {
    ReachRefl(E, b);
    ReachStep(E, a, b, b);
  }

  /** The induction principle: a set that holds the start of a walk and is closed under
      edges holds its end. */
  lemma ReachClosed(E: Edges, S: iset<Id>, a: Id, b: Id)
    requires Reach(E, a, b) && Closed(E, S) && a in S
    ensures b in S
  {
    var p :| WalkFromTo(E, p, a, b);
    var i := 0;
    while i < |p| - 1
      invariant 0 <= i < |p|
      invariant p[i] in S
    {
      assert (p[i], p[i + 1]) in E;
      i := i + 1;
    }
  }

  lemma {:induction false} ReachTrans(E: Edges, a: Id, b: Id, c: Id)
    requires Reach(E, a, b) && Reach(E, b, c)
    ensures Reach(E, a, c)
  {
    var p :| WalkFromTo(E, p, a, b);
    ReachTransWalk(E, p, a, b, c);
  }

  lemma {:induction false} ReachTransWalk(E: Edges, p: seq<Id>, a: Id, b: Id, c: Id)
    requires WalkFromTo(E, p, a, b) && Reach(E, b, c)
    ensures Reach(E, a, c)
    decreases |p|
  {
    if |p| > 1 {
      assert (p[0], p[1]) in E;
      WalkTail(E, p, a, b);
      ReachTransWalk(E, p[1..], p[1], b, c);
      ReachStep(E, a, p[1], c);
    }
  }

  lemma WalkTail(E: Edges, p: seq<Id>, a: Id, b: Id)
    requires WalkFromTo(E, p, a, b) && |p| > 1
    ensures (a, p[1]) in E && WalkFromTo(E, p[1..], p[1], b)
  {
    assert (p[0], p[1]) in E;
    forall i | 0 <= i < |p[1..]| - 1
      ensures (p[1..][i], p[1..][i + 1]) in E
    {
      assert (p[i + 1], p[i + 2]) in E;
    }
  }

  lemma ReachMono(E: Edges, F: Edges, a: Id, b: Id)
    requires E <= F && Reach(E, a, b)
    ensures Reach(F, a, b)
  {
    var p :| WalkFromTo(E, p, a, b);
    forall i | 0 <= i < |p| - 1
      ensures (p[i], p[i + 1]) in F
    {
      assert (p[i], p[i + 1]) in E;
    }
    assert WalkFromTo(F, p, a, b);
  }

  lemma PlusMono(E: Edges, F: Edges, a: Id, b: Id)
    requires E <= F && Plus(E, a, b)
    ensures Plus(F, a, b)
  {
    var c :| (a, c) in E && Reach(E, c, b);
    ReachMono(E, F, c, b);
  }

  lemma ReachCases(E: Edges, a: Id, b: Id)
    ensures Reach(E, a, b) <==> a == b || Plus(E, a, b)
  {
    if Reach(E, a, b) {
      var p :| WalkFromTo(E, p, a, b);
      if |p| > 1 {
        WalkTail(E, p, a, b);
      }
    } else if Plus(E, a, b) {
      var c :| (a, c) in E && Reach(E, c, b);
      ReachStep(E, a, c, b);
    } else if a == b {
      ReachRefl(E, a);
    }
  }

  lemma PlusReach(E: Edges, a: Id, b: Id, c: Id)
    requires Plus(E, a, b) && Reach(E, b, c)
    ensures Plus(E, a, c)
  {
    var d :| (a, d) in E && Reach(E, d, b);
    ReachTrans(E, d, b, c);
  }

  lemma ReachPlus(E: Edges, a: Id, b: Id, c: Id)
    requires Reach(E, a, b) && Plus(E, b, c)
    ensures Plus(E, a, c)
  {
    ReachCases(E, a, b);
    if a != b {
      ReachCases(E, b, c);
      PlusReach(E, a, b, c);
    }
  }

  /** x has a predecessor that a reaches. */
  ghost predicate PlusBack(E: Edges, a: Id, x: Id) {
    exists c :: Reach(E, a, c) && (c, x) in E
  }

  /** A walk of at least one edge has a last edge as well as a first. */
  lemma PlusLast(E: Edges, a: Id, b: Id)
    ensures Plus(E, a, b) <==> PlusBack(E, a, b)
  {
    if Plus(E, a, b) {
      var d :| (a, d) in E && Reach(E, d, b);
      ReachRefl(E, a);
      var S := iset x | PlusBack(E, a, x);
      forall x, y | (x, y) in E && x in S
        ensures y in S
      {
        var c :| Reach(E, a, c) && (c, x) in E;
        ReachEdge(E, c, x);
        ReachTrans(E, a, c, x);
      }
      ReachClosed(E, S, d, b);
    }
    if PlusBack(E, a, b) {
      var c :| Reach(E, a, c) && (c, b) in E;
      ReachRefl(E, b);
      ReachPlus(E, a, c, b);
    }
  }

  /** The nodes of N that a reaches; their number is the rank of a. */
  ghost function ReachSet(E: Edges, N: set<Id>, a: Id): set<Id> {
    set u | u in N && Reach(E, a, u)
  }

  ghost function Rank(E: Edges, N: set<Id>, a: Id): nat {
    |ReachSet(E, N, a)|
  }

  lemma SubsetSize<T>(A: set<T>, B: set<T>)
    requires A <= B
    ensures |A| <= |B|
    ensures A != B ==> |A| < |B|
  {
    assert B == A + (B - A);
  }

  /** Off every cycle, an edge lowers the rank. */
  lemma RankDrops(E: Edges, N: set<Id>, s: Id, t: Id)
    requires Plus(E, s, t) && !Plus(E, s, s) && s in N
    ensures Rank(E, N, t) < Rank(E, N, s)
  {
    ReachCases(E, s, t);
    ReachRefl(E, s);
    forall u | u in ReachSet(E, N, t)
      ensures u in ReachSet(E, N, s)
    {
      ReachTrans(E, s, t, u);
    }
    if s in ReachSet(E, N, t) {
      PlusReach(E, s, t, s);
    }
    SubsetSize(ReachSet(E, N, t), ReachSet(E, N, s));
  }

  /** A rank that every edge lowers rules out cycles. */
  lemma RankedIsAcyclic(E: Edges, rank: map<Id, int>)
    requires forall s, t :: (s, t) in E ==> s in rank && t in rank && rank[s] > rank[t]
    ensures Acyclic(E)
  {
    forall v
      ensures !Plus(E, v, v)
    {
      if Plus(E, v, v) {
        var c :| (v, c) in E && Reach(E, c, v);
        var S := iset x | x in rank && rank[x] < rank[v];
        ReachClosed(E, S, c, v);
      }
    }
  }
}
