/** What replacing an edge s -> p by copies of p's own edges does to a graph. R holds the
    edges of the colour being collapsed and B all others. */
module ProxyCollapse {
  import opened Digraph
  import opened Powers

  /** The edges after s -> p has given way to copies of p's edges. */
  ghost predicate Bypasses(E: Edges, s: Id, p: Id, E2: Edges) {
    forall a, x :: (a, x) in E2 <==>
      if a != s then (a, x) in E else x != p && ((p, x) in E || (s, x) in E)
  }

  /** The same with colours: a copy brings its colour along, even onto an edge that s
      had already. */
  ghost predicate Collapses(R: Edges, B: Edges, s: Id, p: Id, R2: Edges, B2: Edges) {
    && (forall a, x :: (a, x) in R2 <==> Takes(R, B, s, p, R, a, x))
    && (forall a, x :: (a, x) in B2 <==> Takes(R, B, s, p, B, a, x))
  }

  ghost predicate Takes(R: Edges, B: Edges, s: Id, p: Id, C: Edges, a: Id, x: Id) {
    if a != s then (a, x) in C
    else x != p && (if (p, x) in R + B then (p, x) in C else (s, x) in C)
  }

  lemma CollapsesBypasses(R: Edges, B: Edges, s: Id, p: Id, R2: Edges, B2: Edges)
    requires Collapses(R, B, s, p, R2, B2)
    ensures Bypasses(R + B, s, p, R2 + B2)
  {
    forall a, x
      ensures (a, x) in R2 + B2 <==>
              if a != s then (a, x) in R + B else x != p && ((p, x) in R + B || (s, x) in R + B)
    {
      assert (a, x) in R2 <==> Takes(R, B, s, p, R, a, x);
      assert (a, x) in B2 <==> Takes(R, B, s, p, B, a, x);
    }
  }

  /*** Reachability, whatever the colours ***/

  lemma BypassPlusBack(E: Edges, s: Id, p: Id, E2: Edges, a: Id, b: Id)
    requires Bypasses(E, s, p, E2) && (s, p) in E && Plus(E2, a, b)
    ensures Plus(E, a, b)
  {
    var S := iset x | Plus(E, a, x);
    forall x, y | (x, y) in E2
      ensures Plus(E, x, y)
    {
      BypassEdgeBack(E, s, p, E2, x, y);
    }
    forall x, y | (x, y) in E2 && x in S
      ensures y in S
    {
      ReachCases(E, x, y);
      PlusReach(E, a, x, y);
    }
    var c :| (a, c) in E2 && Reach(E2, c, b);
    ReachClosed(E2, S, c, b);
  }

  lemma BypassEdgeBack(E: Edges, s: Id, p: Id, E2: Edges, x: Id, y: Id)
    requires Bypasses(E, s, p, E2) && (s, p) in E && (x, y) in E2
    ensures Plus(E, x, y)
  {
    ReachRefl(E, y);
    if (x, y) !in E {
      ReachStep(E, p, y, y);
    }
  }

  lemma {:induction false} BypassWalk(E: Edges, s: Id, p: Id, E2: Edges, w: seq<Id>, a: Id, b: Id)
    requires Bypasses(E, s, p, E2) && WalkFromTo(E, w, a, b) && |w| > 1 && b != p
    ensures Plus(E2, a, b)
    decreases |w|
  {
    WalkTail(E, w, a, b);
    var c := w[1];
    ReachRefl(E2, b);
    if a != s || c != p {
      assert (a, c) in E2;
      if |w| > 2 {
        BypassWalk(E, s, p, E2, w[1..], c, b);
        ReachCases(E2, c, b);
      }
    } else {
      WalkTail(E, w[1..], c, b);
      var d := w[2];
      assert w[1..][1] == d && w[1..][1..] == w[2..];
      if d == p {
        assert WalkFromTo(E, [s] + w[2..], a, b) by {
          var v := [s] + w[2..];
          forall i | 0 <= i < |v| - 1
            ensures (v[i], v[i + 1]) in E
          {
            assert i > 0 ==> v[i] == w[2..][i - 1] && v[i + 1] == w[2..][i];
          }
        }
        BypassWalk(E, s, p, E2, [s] + w[2..], a, b);
      } else {
        assert (s, d) in E2;
        if |w| > 3 {
          BypassWalk(E, s, p, E2, w[2..], d, b);
          ReachCases(E2, d, b);
        }
      }
    }
  }

  /** Bypassing s -> p keeps what is reachable, in at least one step, from anywhere: every
      node other than p exactly, and p at most as before. */
  lemma BypassKeepsReach(E: Edges, s: Id, p: Id, E2: Edges, a: Id, b: Id)
    requires Bypasses(E, s, p, E2) && (s, p) in E
    ensures b != p ==> (Plus(E2, a, b) <==> Plus(E, a, b))
    ensures Plus(E2, a, b) ==> Plus(E, a, b)
  {
    if Plus(E2, a, b) {
      BypassPlusBack(E, s, p, E2, a, b);
    } else if b != p && Plus(E, a, b) {
      var c :| (a, c) in E && Reach(E, c, b);
      var w :| WalkFromTo(E, w, c, b);
      forall i | 0 <= i < |[a] + w| - 1
        ensures (([a] + w)[i], ([a] + w)[i + 1]) in E
      {
        assert i > 0 ==> ([a] + w)[i] == w[i - 1];
        assert ([a] + w)[i + 1] == w[i];
      }
      assert WalkFromTo(E, [a] + w, a, b);
      BypassWalk(E, s, p, E2, [a] + w, a, b);
    }
  }

  /*** Colours ***/

  /** Some edges of R, then one of B, lead from a to x. */
  ghost predicate Via(R: Edges, B: Edges, a: Id, x: Id) {
    exists u :: Reach(R, a, u) && (u, x) in B
  }

  /** No two nodes are joined both by a chain within R and by one that ends in B. */
  ghost predicate NoClash(R: Edges, B: Edges) {
    forall a, x :: Via(R, B, a, x) ==> !Plus(R, a, x)
  }

  /** The edges of R other than loops. A coloured loop gives way to nothing. */
  ghost function Loopless(R: Edges): (L: Edges)
    ensures L <= R
  {
    set e | e in R && e.0 != e.1
  }

  lemma {:induction false} LooplessWalk(R: Edges, w: seq<Id>, a: Id, b: Id)
    requires WalkFromTo(R, w, a, b)
    ensures Reach(Loopless(R), a, b)
    decreases |w|
  {
    if |w| == 1 {
      ReachRefl(Loopless(R), a);
    } else {
      WalkTail(R, w, a, b);
      LooplessWalk(R, w[1..], w[1], b);
      if a != w[1] {
        ReachStep(Loopless(R), a, w[1], b);
      }
    }
  }

  lemma LooplessReach(R: Edges, a: Id, b: Id)
    ensures Reach(Loopless(R), a, b) <==> Reach(R, a, b)
  {
    if Reach(R, a, b) {
      var w :| WalkFromTo(R, w, a, b);
      LooplessWalk(R, w, a, b);
    }
    if Reach(Loopless(R), a, b) {
      ReachMono(Loopless(R), R, a, b);
    }
  }

  /** Loops do not matter for what is connected through R. */
  lemma LooplessVia(R: Edges, B: Edges, a: Id, x: Id)
    ensures Via(Loopless(R), B, a, x) <==> Via(R, B, a, x)
  {
    if Via(R, B, a, x) {
      var u :| Reach(R, a, u) && (u, x) in B;
      LooplessReach(R, a, u);
    }
    if Via(Loopless(R), B, a, x) {
      var u :| Reach(Loopless(R), a, u) && (u, x) in B;
      LooplessReach(R, a, u);
    }
  }

  lemma ViaEdge(R: Edges, B: Edges, a: Id, x: Id)
    requires (a, x) in B
    ensures Via(R, B, a, x)
  {
    ReachRefl(R, a);
  }

  lemma ViaStep(R: Edges, B: Edges, a: Id, c: Id, x: Id)
    requires Reach(R, a, c) && Via(R, B, c, x)
    ensures Via(R, B, a, x)
  {
    var u :| Reach(R, c, u) && (u, x) in B;
    ReachTrans(R, a, c, u);
  }

  /** Edges of the colour only ever shorten chains of the colour that were there. */
  lemma CollapseShrinksColor(R: Edges, B: Edges, s: Id, p: Id, R2: Edges, B2: Edges, a: Id, x: Id)
    requires Collapses(R, B, s, p, R2, B2) && (s, p) in R
    ensures (a, x) in R2 ==> Plus(R, a, x)
    ensures Plus(R2, a, x) ==> Plus(R, a, x)
  {
    forall b, y | (b, y) in R2
      ensures Plus(R, b, y)
    {
      assert Takes(R, B, s, p, R, b, y);
      ReachRefl(R, y);
      if (b, y) !in R {
        ReachStep(R, p, y, y);
      }
    }
    if Plus(R2, a, x) {
      var S := iset y | Plus(R, a, y);
      forall b, y | (b, y) in R2 && b in S
        ensures y in S
      {
        ReachCases(R, b, y);
        PlusReach(R, a, b, y);
      }
      var c :| (a, c) in R2 && Reach(R2, c, x);
      ReachClosed(R2, S, c, x);
    }
  }

  /** No collapse joins two nodes anew. */
  lemma CollapseIsSound(R: Edges, B: Edges, s: Id, p: Id, R2: Edges, B2: Edges, a: Id, x: Id)
    requires Collapses(R, B, s, p, R2, B2) && (s, p) in R && Via(R2, B2, a, x)
    ensures Via(R, B, a, x)
  {
    var u :| Reach(R2, a, u) && (u, x) in B2;
    assert Takes(R, B, s, p, B, u, x);
    if (u, x) in B {
      ViaEdge(R, B, u, x);
    } else {
      ViaEdge(R, B, p, x);
      ReachEdge(R, s, p);
      ViaStep(R, B, s, p, x);
    }
    ReachCases(R2, a, u);
    CollapseShrinksColor(R, B, s, p, R2, B2, a, u);
    ReachCases(R, a, u);
    ViaStep(R, B, a, u, x);
  }

  /** Without a clash no collapse overwrites an edge with one of the other colour, so none
      loses a connection. */
  lemma {:induction false} CollapseIsComplete(R: Edges, B: Edges, s: Id, p: Id, R2: Edges, B2: Edges,
                                              w: seq<Id>, a: Id, u: Id, x: Id)
    requires Collapses(R, B, s, p, R2, B2) && (s, p) in R && R !! B
    requires Acyclic(Loopless(R)) && NoClash(R, B)
    requires WalkFromTo(Loopless(R), w, a, u) && (u, x) in B
    ensures Via(R2, B2, a, x)
    decreases |w|
  {
    var L := Loopless(R);
    ReachEdge(R, s, p);
    if |w| == 1 {
      ClashFreeCopy(R, B, s, p, a, x);
      assert (a, x) in B2 <==> Takes(R, B, s, p, B, a, x);
      ViaEdge(R2, B2, a, x);
    } else {
      WalkTail(L, w, a, u);
      var c := w[1];
      if a != s || c != p {
        ClashFreeCopy(R, B, s, p, a, c);
        assert (a, c) in R2 <==> Takes(R, B, s, p, R, a, c);
        CollapseIsComplete(R, B, s, p, R2, B2, w[1..], c, u, x);
        ReachEdge(R2, a, c);
        ViaStep(R2, B2, a, c, x);
      } else if |w| == 2 {
        ClashFreeCopy(R, B, s, p, p, x);
        ClashFreeCopy(R, B, s, p, s, x);
        assert x != p by {
          if x == p {
            ViaEdge(R, B, p, p);
            ViaStep(R, B, s, p, p);
            ReachRefl(R, p);
          }
        }
        assert (s, x) in B2 <==> Takes(R, B, s, p, B, s, x);
        ViaEdge(R2, B2, s, x);
      } else {
        WalkTail(L, w[1..], p, u);
        var d := w[2];
        assert w[1..][1] == d && w[1..][1..] == w[2..];
        assert (s, d) in R2 <==> Takes(R, B, s, p, R, s, d);
        CollapseIsComplete(R, B, s, p, R2, B2, w[2..], d, u, x);
        ReachEdge(R2, s, d);
        ViaStep(R2, B2, s, d, x);
      }
    }
  }

  /** Where p and s both have an edge to x, the two have the same colour. */
  lemma ClashFreeCopy(R: Edges, B: Edges, s: Id, p: Id, a: Id, x: Id)
    requires (s, p) in R && NoClash(R, B)
    ensures (s, x) in B ==> (p, x) !in R && x != p
    ensures (s, x) in R ==> (p, x) !in B
  {
    ReachRefl(R, x);
    ReachRefl(R, p);
    ReachEdge(R, s, p);
    if (s, x) in B {
      ViaEdge(R, B, s, x);
      if (p, x) in R {
        ReachEdge(R, p, x);
      }
      assert x == p ==> Plus(R, s, x);
    }
    if (s, x) in R && (p, x) in B {
      ViaEdge(R, B, p, x);
      ViaStep(R, B, s, p, x);
    }
  }

  /** With a clash the outcome depends on the order: from s -> p -> t in the colour and
      s -> t in another, one order keeps s -> t and one loses it. */
  lemma ClashDependsOnOrder()
    ensures var s, p, t := "s", "p", "t";
            var R, B := {(s, p), (p, t)}, {(s, t)};
            && Via(R, B, s, t) && !NoClash(R, B)
            && Collapses(R, B, p, t, {(s, p)}, {(s, t)}) && Collapses({(s, p)}, {(s, t)}, s, p, {}, {(s, t)})
            && Collapses(R, B, s, p, {(s, t), (p, t)}, {}) && Collapses({(s, t), (p, t)}, {}, s, t, {(p, t)}, {})
            && Collapses({(p, t)}, {}, p, t, {}, {})
  {
    var s, p, t := "s", "p", "t";
    assert s[0] != p[0] && p[0] != t[0] && s[0] != t[0];
    var R, B := {(s, p), (p, t)}, {(s, t)};
    ViaEdge(R, B, s, t);
    ReachEdge(R, p, t);
    assert Plus(R, s, t);
  }

  /** So does whether a cycle is left below m: from m -> s -> p in the colour and p -> s in
      another, one order leaves m -> s -> s and one leaves m without edges. */
  lemma CycleDependsOnOrder()
    ensures var m, s, p := "m", "s", "p";
            var R, B := {(m, s), (s, p)}, {(p, s)};
            && !AcyclicBelow(R + B, m) && Acyclic(R)
            && Collapses(R, B, m, s, {(m, p), (s, p)}, {(p, s)})
            && Collapses({(m, p), (s, p)}, {(p, s)}, s, p, {(m, p)}, {(p, s), (s, s)})
            && Collapses({(m, p)}, {(p, s), (s, s)}, m, p, {}, {(p, s), (s, s), (m, s)})
            && !AcyclicBelow({(p, s), (s, s), (m, s)}, m)
            && Collapses(R, B, s, p, {(m, s)}, {(p, s), (s, s)})
            && Collapses({(m, s)}, {(p, s), (s, s)}, m, s, {}, {(p, s), (s, s)})
            && AcyclicBelow({(p, s), (s, s)}, m)
  {
    var m, s, p := "m", "s", "p";
    assert m[0] != s[0] && s[0] != p[0] && m[0] != p[0];
    CyclePresent(m, s, p);
    CycleKept(m, s, p);
    CycleLost(m, s, p);
  }

  lemma CyclePresent(m: Id, s: Id, p: Id)
    requires m != s && s != p && m != p
    ensures !AcyclicBelow({(m, s), (s, p), (p, s)}, m) && Acyclic({(m, s), (s, p)})
    ensures {(m, s), (s, p)} + {(p, s)} == {(m, s), (s, p), (p, s)}
    ensures !AcyclicBelow({(p, s), (s, s), (m, s)}, m) && AcyclicBelow({(p, s), (s, s)}, m)
  {
    var E, F := {(m, s), (s, p), (p, s)}, {(p, s), (s, s), (m, s)};
    ReachEdge(E, m, s);
    ReachEdge(E, p, s);
    assert Reach(E, m, s) && Plus(E, s, s);
    ReachEdge(F, m, s);
    ReachRefl(F, s);
    assert Reach(F, m, s) && Plus(F, s, s);
    RankedIsAcyclic({(m, s), (s, p)}, map[m := 2, s := 1, p := 0]);
    forall v
      ensures Reach({(p, s), (s, s)}, m, v) ==> v == m
      ensures !Plus({(p, s), (s, s)}, m, m)
    {
      ReachCases({(p, s), (s, s)}, m, v);
    }
  }

  lemma CycleKept(m: Id, s: Id, p: Id)
    requires m != s && s != p && m != p
    ensures Collapses({(m, s), (s, p)}, {(p, s)}, m, s, {(m, p), (s, p)}, {(p, s)})
    ensures Collapses({(m, p), (s, p)}, {(p, s)}, s, p, {(m, p)}, {(p, s), (s, s)})
    ensures Collapses({(m, p)}, {(p, s), (s, s)}, m, p, {}, {(p, s), (s, s), (m, s)})
  {
  }

  lemma CycleLost(m: Id, s: Id, p: Id)
    requires m != s && s != p && m != p
    ensures Collapses({(m, s), (s, p)}, {(p, s)}, s, p, {(m, s)}, {(p, s), (s, s)})
    ensures Collapses({(m, s)}, {(p, s), (s, s)}, m, s, {}, {(p, s), (s, s)})
  {
  }

  /** Collapsing every chain leaves a cycle below m exactly when there was one. */
  lemma ViaKeepsCycles(R: Edges, B: Edges, F: Edges, m: Id)
    requires Acyclic(R)
    requires forall a, x :: (a, x) in F <==> Via(R, B, a, x)
    ensures AcyclicBelow(F, m) <==> AcyclicBelow(R + B, m)
  {
    if !AcyclicBelow(F, m) {
      var v :| Reach(F, m, v) && Plus(F, v, v);
      ReachCases(F, m, v);
      forall a, x | (a, x) in F
        ensures Plus(R + B, a, x)
      {
        ViaPlus(R, B, a, x);
      }
      PlusTransfers(F, R + B, v, v);
      if m != v {
        PlusTransfers(F, R + B, m, v);
      }
      ReachCases(R + B, m, v);
    }
    if !AcyclicBelow(R + B, m) {
      var v :| Reach(R + B, m, v) && Plus(R + B, v, v);
      var u, x := PassesOther(R, B, v, v);
      ReachTrans(R + B, m, v, u);
      CollapsedChain(R, B, F, m, u, x);
      ReachTrans(R + B, x, v, u);
      CollapsedChain(R, B, F, x, u, x);
      ReachCases(F, m, x);
    }
  }

  lemma ViaPlus(R: Edges, B: Edges, a: Id, x: Id)
    requires Via(R, B, a, x)
    ensures Plus(R + B, a, x)
  {
    var u :| Reach(R, a, u) && (u, x) in B;
    ReachMono(R, R + B, a, u);
    PlusLast(R + B, a, x);
  }

  lemma PlusTransfers(F: Edges, E: Edges, a: Id, b: Id)
    requires forall x, y :: (x, y) in F ==> Plus(E, x, y)
    requires Plus(F, a, b)
    ensures Plus(E, a, b)
  {
    var S := iset x | Plus(E, a, x);
    forall x, y | (x, y) in F && x in S
      ensures y in S
    {
      ReachCases(E, x, y);
      PlusReach(E, a, x, y);
    }
    var c :| (a, c) in F && Reach(F, c, b);
    ReachClosed(F, S, c, b);
  }

  ghost predicate OtherBetween(R: Edges, B: Edges, a: Id, b: Id) {
    exists u, x :: Reach(R + B, a, u) && (u, x) in B && Reach(R + B, x, b)
  }

  lemma PassesOther(R: Edges, B: Edges, a: Id, b: Id) returns (u: Id, x: Id)
    requires Plus(R + B, a, b) && !Plus(R, a, b)
    ensures Reach(R + B, a, u) && (u, x) in B && Reach(R + B, x, b)
  {
    var E := R + B;
    var S := iset y | Reach(R, a, y) || OtherBetween(R, B, a, y);
    var c :| (a, c) in E && Reach(E, c, b);
    ReachRefl(E, a);
    ReachRefl(R, a);
    forall y, z | (y, z) in E && Reach(R, a, y)
      ensures Plus(R, a, z) || OtherBetween(R, B, a, z)
    {
      if (y, z) in R {
        PlusLast(R, a, z);
      } else {
        ReachMono(R, E, a, y);
        ReachRefl(E, z);
      }
    }
    forall y, z | (y, z) in E && OtherBetween(R, B, a, y)
      ensures OtherBetween(R, B, a, z)
    {
      var u, x :| Reach(E, a, u) && (u, x) in B && Reach(E, x, y);
      ReachEdge(E, y, z);
      ReachTrans(E, x, y, z);
    }
    var T := iset y | Plus(R, a, y) || OtherBetween(R, B, a, y);
    forall y, z | (y, z) in E && y in T
      ensures z in T
    {
      ReachCases(R, a, y);
    }
    ReachClosed(E, T, c, b);
    u, x :| Reach(E, a, u) && (u, x) in B && Reach(E, x, b);
  }

  lemma {:induction false} CollapsedChain(R: Edges, B: Edges, F: Edges, a: Id, u: Id, x: Id)
    requires forall a, x :: (a, x) in F <==> Via(R, B, a, x)
    requires Reach(R + B, a, u) && (u, x) in B
    ensures Plus(F, a, x)
  {
    var w :| WalkFromTo(R + B, w, a, u);
    CollapsedWalk(R, B, F, w, a, u, x);
  }

  lemma {:induction false} CollapsedWalk(R: Edges, B: Edges, F: Edges, w: seq<Id>, a: Id, u: Id, x: Id)
    requires forall a, x :: (a, x) in F <==> Via(R, B, a, x)
    requires WalkFromTo(R + B, w, a, u) && (u, x) in B
    ensures Plus(F, a, x)
    decreases |w|
  {
    if |w| == 1 {
      ViaEdge(R, B, a, x);
      ReachRefl(F, x);
    } else {
      WalkTail(R + B, w, a, u);
      var c := w[1];
      CollapsedWalk(R, B, F, w[1..], c, u, x);
      if (a, c) in B {
        ViaEdge(R, B, a, c);
        ReachCases(F, c, x);
      } else {
        var d :| (c, d) in F && Reach(F, d, x);
        ReachEdge(R, a, c);
        ViaStep(R, B, a, c, d);
      }
    }
  }

  /*** Termination: each collapse trades one edge for fewer than |N| + 1 lighter ones ***/

  /** The weight of an edge grows with the rank of its target in the graph R0. */
  ghost function EdgeWeight(R0: Edges, N: set<Id>, e: (Id, Id)): nat {
    Pow(|N| + 1, Rank(R0, N, e.1))
  }

  ghost function Weight(R0: Edges, N: set<Id>, R: Edges): nat {
    if R == {} then 0
    else
      var e :| e in R;
      EdgeWeight(R0, N, e) + Weight(R0, N, R - {e})
  }

  lemma {:induction false} WeightWithout(R0: Edges, N: set<Id>, R: Edges, e: (Id, Id))
    requires e in R
    ensures Weight(R0, N, R) == EdgeWeight(R0, N, e) + Weight(R0, N, R - {e})
  {
    var d :| d in R && Weight(R0, N, R) == EdgeWeight(R0, N, d) + Weight(R0, N, R - {d});
    if d != e {
      WeightWithout(R0, N, R - {d}, e);
      WeightWithout(R0, N, R - {e}, d);
      assert R - {d} - {e} == R - {e} - {d};
    }
  }

  lemma {:induction false} WeightMono(R0: Edges, N: set<Id>, A: Edges, R: Edges)
    requires A <= R
    ensures Weight(R0, N, A) <= Weight(R0, N, R)
  {
    if e :| e in A {
      WeightWithout(R0, N, A, e);
      WeightWithout(R0, N, R, e);
      WeightMono(R0, N, A - {e}, R - {e});
    }
  }

  lemma {:induction false} WeightUnion(R0: Edges, N: set<Id>, A: Edges, D: Edges)
    ensures Weight(R0, N, A + D) <= Weight(R0, N, A) + Weight(R0, N, D)
    decreases D
  {
    if D == {} {
      assert A + D == A;
    } else {
      var e :| e in D;
      WeightWithout(R0, N, D, e);
      WeightUnion(R0, N, A, D - {e});
      WeightWithout(R0, N, A + D, e);
      WeightMono(R0, N, A + D - {e}, A + (D - {e}));
    }
  }

  lemma {:induction false} WeightBound(R0: Edges, N: set<Id>, D: Edges, c: nat)
    requires forall e :: e in D ==> EdgeWeight(R0, N, e) <= c
    ensures Weight(R0, N, D) <= |D| * c
  {
    if e :| e in D {
      WeightWithout(R0, N, D, e);
      WeightBound(R0, N, D - {e}, c);
      assert |D| * c == (|D| - 1) * c + c;
    }
  }

  lemma FewLightEdges(R0: Edges, N: set<Id>, D: Edges, c: nat)
    requires c > 0 && |D| <= |N|
    requires forall e :: e in D ==> EdgeWeight(R0, N, e) <= c
    ensures Weight(R0, N, D) < (|N| + 1) * c
  {
    WeightBound(R0, N, D, c);
    TimesMono(|D|, |N|, c);
    TimesMono(|N|, |N| + 1, c);
  }

  lemma {:induction false} TimesMono(d: nat, n: nat, c: nat)
    requires d <= n
    ensures d * c <= n * c
    ensures d < n && c > 0 ==> d * c < n * c
  {
    if d < n {
      TimesMono(d, n - 1, c);
      assert n * c == (n - 1) * c + c;
    }
  }

  /** The copies made of p's edges weigh less than the edge into p they replace. */
  lemma CopiesWeighLess(R0: Edges, N: set<Id>, s: Id, p: Id, D: Edges)
    requires Acyclic(R0) && p in N
    requires forall e :: e in D ==> e.0 == s && e.1 in N && Plus(R0, p, e.1)
    ensures Weight(R0, N, D) < EdgeWeight(R0, N, (s, p))
  {
    var k, r := |N| + 1, Rank(R0, N, p);
    PowMono(k, r, r);
    if d :| d in D {
      RankDrops(R0, N, p, d.1);
      var c := Pow(k, r - 1);
      PowMono(k, r - 1, r - 1);
      assert EdgeWeight(R0, N, (s, p)) == k * c;
      hide *;
      forall e | e in D
        ensures EdgeWeight(R0, N, e) <= c
      {
        LighterTarget(R0, N, p, e);
      }
      var X := set e | e in D :: e.1;
      SubsetSize(X, N);
      TargetsCount(D, X, s);
      FewLightEdges(R0, N, D, c);
    }
  }

  lemma LighterTarget(R0: Edges, N: set<Id>, p: Id, e: (Id, Id))
    requires Acyclic(R0) && p in N && Plus(R0, p, e.1)
    ensures Rank(R0, N, p) > 0
    ensures EdgeWeight(R0, N, e) <= Pow(|N| + 1, Rank(R0, N, p) - 1)
  {
    RankDrops(R0, N, p, e.1);
    PowMono(|N| + 1, Rank(R0, N, e.1), Rank(R0, N, p) - 1);
  }

  lemma {:induction false} TargetsCount(D: Edges, X: set<Id>, s: Id)
    requires X == (set e | e in D :: e.1)
    requires forall e :: e in D ==> e.0 == s
    ensures |X| == |D|
  {
    if D == {} {
      assert X == {};
    } else {
      var e :| e in D;
      assert X - {e.1} == (set d | d in D - {e} :: d.1) by {
        forall y | y in X - {e.1}
          ensures y in (set d | d in D - {e} :: d.1)
        {
          var d :| d in D && d.1 == y;
        }
        forall d | d in D - {e}
          ensures d.1 != e.1
        {
          assert d == (s, d.1) && e == (s, e.1);
        }
      }
      TargetsCount(D - {e}, X - {e.1}, s);
    }
  }

  /** An edge of the colour, loops apart, stands for a chain within L. */
  ghost predicate ChainsOf(L: Edges, R: Edges) {
    forall a, x :: (a, x) in R ==> a == x || Plus(L, a, x)
  }

  lemma ChainsStep(L: Edges, R: Edges, B: Edges, s: Id, p: Id, R2: Edges, B2: Edges)
    requires ChainsOf(L, R) && Collapses(R, B, s, p, R2, B2) && (s, p) in R
    ensures ChainsOf(L, R2)
  {
    forall a, x | (a, x) in R2
      ensures a == x || Plus(L, a, x)
    {
      assert Takes(R, B, s, p, R, a, x);
      if (a, x) !in R && s != p {
        ReachCases(L, p, x);
        PlusReach(L, s, p, x);
      }
    }
  }

  /** Every collapse makes the coloured edges lighter, so only finitely many can follow
      one another. L is the coloured graph the collapsing started from, without loops. */
  lemma CollapseLightens(L: Edges, N: set<Id>, R: Edges, B: Edges, s: Id, p: Id, R2: Edges, B2: Edges)
    requires Acyclic(L) && ChainsOf(L, R) && forall a, x :: (a, x) in R ==> a in N && x in N
    requires Collapses(R, B, s, p, R2, B2) && (s, p) in R
    ensures Weight(L, N, R2) < Weight(L, N, R)
  {
    var D := if s == p then {} else set e | e in R2 && e.0 == s && (p, e.1) in R;
    forall e | e in D
      ensures e.1 in N && Plus(L, p, e.1)
    {
      assert e == (e.0, e.1) && Takes(R, B, s, p, R, e.0, e.1);
    }
    CopiesWeighLess(L, N, s, p, D);
    WeightWithout(L, N, R, (s, p));
    var A := R - {(s, p)};
    forall e | e in R2
      ensures e in A + D
    {
      assert e == (e.0, e.1) && Takes(R, B, s, p, R, e.0, e.1);
    }
    WeightMono(L, N, R2, A + D);
    WeightUnion(L, N, A, D);
  }
}
