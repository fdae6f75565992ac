/** Extraction of the part of a graph below a node, and the faster queries about it. */
module Subgraph {
  import opened Wrappers
  import opened Digraph
  import opened GraphState
  import opened Graphs

  function Targets(g: GState, a: Id): seq<Id> {
    if a in g then g[a].targets else []
  }

  /** The start and every node it reaches. */
  ghost function Span(g: GState, start: Id): set<Id> {
    {start} + set x | x in g && Reach(EdgesOf(g), start, x)
  }

  /** h is the part of g below start: its nodes, each with the target list, the edge
      attributes and the priority it has in g. */
  ghost predicate IsSubgraph(g: GState, start: Id, h: GState) {
    && Mirror(h)
    && (forall a :: a in h <==> a in Span(g, start))
    && (forall a :: a in h ==> h[a].priority == PriorityOf(g, a) && h[a].targets == Targets(g, a))
    && (forall a, x :: Attr(h, a, x) == if a in Span(g, start) then Attr(g, a, x) else None)
  }

  /** These conditions leave nothing open. */
  lemma SubgraphIsUnique(g: GState, start: Id, h: GState, k: GState)
    requires IsSubgraph(g, start, h) && IsSubgraph(g, start, k)
    ensures h == k
  {
    forall a | a in h
      ensures h[a] == k[a]
    {
      SameAttributes(h, k, a);
      SameSources(h, k, a);
    }
  }

  lemma SameAttributes(h: GState, k: GState, a: Id)
    requires a in h && a in k && forall x :: Attr(h, a, x) == Attr(k, a, x)
    ensures h[a].edgeAttributes == k[a].edgeAttributes
  {
    forall x
      ensures x in h[a].edgeAttributes <==> x in k[a].edgeAttributes
      ensures x in h[a].edgeAttributes ==> h[a].edgeAttributes[x] == k[a].edgeAttributes[x]
    {
      assert Attr(h, a, x) == Attr(k, a, x);
    }
  }

  lemma SameSources(h: GState, k: GState, a: Id)
    requires Mirror(h) && Mirror(k) && a in h && a in k
    requires forall x :: Attr(h, x, a) == Attr(k, x, a)
    ensures h[a].sources == k[a].sources
  {
    forall x
      ensures x in h[a].sources <==> x in k[a].sources
    {
      assert Attr(h, x, a) == Attr(k, x, a);
      assert HasEdge(h, x, a) <==> HasSource(h, x, a);
      assert HasEdge(k, x, a) <==> HasSource(k, x, a);
    }
  }

  lemma TargetsAreReached(g: GState, start: Id, a: Id, x: Id)
    requires Mirror(g) && a in Span(g, start) && x in Targets(g, a)
    ensures x in Span(g, start) && HasEdge(g, a, x) && x in g
  {
    assert ListsItsEdges(g[a]);
    assert HasEdge(g, a, x) && HasSource(g, a, x);
    ReachRefl(EdgesOf(g), start);
    ReachEdge(EdgesOf(g), a, x);
    ReachTrans(EdgesOf(g), start, a, x);
  }

  lemma EdgeIsTarget(g: GState, a: Id, x: Id)
    requires Mirror(g)
    ensures (a, x) in EdgesOf(g) <==> x in Targets(g, a)
  {
    assert (a, x) in EdgesOf(g) <==> HasEdge(g, a, x);
    assert a in g ==> ListsItsEdges(g[a]);
  }

  /** A set of names that holds the start and all targets of its members holds the span. */
  lemma SpanIsLeast(g: GState, start: Id, S: set<Id>)
    requires Mirror(g) && start in S && forall a, x :: a in S && x in Targets(g, a) ==> x in S
    ensures Span(g, start) <= S
  {
    hide Mirror, EdgesOf, Targets;
    var I := iset x | x in S;
    forall a, x | (a, x) in EdgesOf(g) && a in I
      ensures x in I
    {
      EdgeIsTarget(g, a, x);
    }
    forall y | y in Span(g, start) && y != start
      ensures y in S
    {
      ReachClosed(EdgesOf(g), I, start, y);
    }
  }

  /*** A copy in progress ***/

  function CopyNodeOf(g: GState, h: GState, n: Id): GState {
    if n in g then WithPriority(WithNode(h, n), n, g[n].priority) else WithNode(h, n)
  }

  /** h holds part of what is below start: each of its nodes a first stretch of its target
      list, and the nodes outside open all of it. */
  ghost predicate Partial(g: GState, start: Id, h: GState, open: set<Id>) {
    && (forall a :: a in h ==> a in Span(g, start) && h[a].priority == PriorityOf(g, a))
    && (forall a :: a in h ==> Stretch(g, a, h[a].targets, a in open))
    && (forall a, x :: Attr(h, a, x).Some? ==> Attr(h, a, x) == Attr(g, a, x))
  }

  ghost predicate Stretch(g: GState, a: Id, ts: seq<Id>, part: bool) {
    ts <= Targets(g, a) && (part || ts == Targets(g, a))
  }

  ghost predicate Grows(h: GState, k: GState) {
    forall a :: a in h ==> a in k && |h[a].targets| <= |k[a].targets|
  }

  lemma CopyNodeFacts(g: GState, h: GState, n: Id)
    ensures var k := CopyNodeOf(g, h, n);
            && (forall a :: a in k <==> a in h || a == n)
            && (forall a :: a in h ==> k[a].targets == h[a].targets)
            && (forall a :: a in h && a != n ==> k[a].priority == h[a].priority)
            && (n !in h ==> k[n].targets == [] && k[n].priority == PriorityOf(g, n))
            && (n in h && h[n].priority == PriorityOf(g, n) ==> k == h)
            && (forall a, x :: Attr(k, a, x) == Attr(h, a, x))
  {
    var k := CopyNodeOf(g, h, n);
    if n in h && h[n].priority == PriorityOf(g, n) {
      assert h[n].(priority := PriorityOf(g, n)) == h[n];
    }
  }

  lemma CopyNodeMirrors(g: GState, h: GState, n: Id)
    requires Mirror(h)
    ensures Mirror(CopyNodeOf(g, h, n)) && EdgesOf(CopyNodeOf(g, h, n)) == EdgesOf(h)
  {
    hide Mirror;
    WithNodeKeeps(h, n);
    WithPriorityKeeps(WithNode(h, n), n, PriorityOf(g, n));
  }

  lemma CopyNodeStep(g: GState, start: Id, h: GState, open: set<Id>, n: Id)
    requires Mirror(h) && Partial(g, start, h, open) && n in Span(g, start)
    ensures Mirror(CopyNodeOf(g, h, n)) && n in CopyNodeOf(g, h, n)
    ensures Partial(g, start, CopyNodeOf(g, h, n), open + {n}) && Grows(h, CopyNodeOf(g, h, n))
    ensures EdgesOf(CopyNodeOf(g, h, n)) == EdgesOf(h)
    ensures n in h ==> CopyNodeOf(g, h, n) == h
  {
    hide Mirror, Span, EdgesOf, CopyNodeOf, Attr, Stretch, PriorityOf;
    CopyNodeMirrors(g, h, n);
    CopyNodeFacts(g, h, n);
    OpenMore(g, start, h, open, open + {n});
    if n !in h {
      var k := CopyNodeOf(g, h, n);
      forall a | a in k
        ensures Stretch(g, a, k[a].targets, a in open + {n})
      {
        if a == n {
          NoStretch(g, n);
        } else {
          assert Stretch(g, a, h[a].targets, a in open + {n});
        }
      }
    }
  }

  lemma OpenMore(g: GState, start: Id, h: GState, open: set<Id>, more: set<Id>)
    requires Partial(g, start, h, open) && open <= more
    ensures Partial(g, start, h, more)
  {
    hide Span, Attr, PriorityOf, Targets;
    forall a | a in h
      ensures Stretch(g, a, h[a].targets, a in more)
    {
      assert Stretch(g, a, h[a].targets, a in open);
    }
  }

  /** Once n has all its targets it is no longer open. */
  lemma CloseNode(g: GState, start: Id, h: GState, open: set<Id>, n: Id)
    requires Partial(g, start, h, open + {n})
    requires n in h && |Targets(g, n)| <= |h[n].targets|
    ensures Partial(g, start, h, open - {n})
  {
    hide Span, Attr, PriorityOf, Targets;
    forall a | a in h
      ensures Stretch(g, a, h[a].targets, a in open - {n})
    {
      assert Stretch(g, a, h[a].targets, a in open + {n});
    }
  }

  lemma GrowsOn(h: GState, k: GState, l: GState)
    requires Grows(h, k) && Grows(k, l)
    ensures Grows(h, l)
  {
  }

  lemma NoStretch(g: GState, n: Id)
    ensures Stretch(g, n, [], true)
  {
  }

  /** The i-th target of n is linked: either it was already, or the new link extends the
      stretch by exactly it. */
  lemma EdgeStep(g: GState, start: Id, h: GState, open: set<Id>, n: Id, i: nat)
    requires Mirror(g) && Mirror(h) && Partial(g, start, h, open)
    requires n in open && n in h && n in g && i < |g[n].targets| && i <= |h[n].targets|
    requires g[n].targets[i] in h
    ensures var t := g[n].targets[i];
            && t in g[n].edgeAttributes
            && if HasEdge(h, n, t) then i + 1 <= |h[n].targets|
               else
                 var k := WithEdgeAttributes(WithEdge(h, n, t), n, t, g[n].edgeAttributes[t]);
                 Partial(g, start, k, open) && Grows(h, k) && n in k && i + 1 == |k[n].targets|
  {
    hide Mirror, Span, Attr, WithEdge, WithEdgeAttributes, Stretch, PriorityOf;
    var t := g[n].targets[i];
    StretchStep(g, h, n, i, n in open);
    if !HasEdge(h, n, t) {
      var c := g[n].edgeAttributes[t];
      LinkedLists(h, n, t, c);
      LinkedAttrs(h, n, t, c);
      AttrIs(g, n, t);
    }
  }

  lemma AttrIs(g: GState, n: Id, t: Id)
    requires n in g && t in g[n].edgeAttributes
    ensures Attr(g, n, t) == Some(g[n].edgeAttributes[t])
  {
  }

  lemma StretchStep(g: GState, h: GState, n: Id, i: nat, part: bool)
    requires Mirror(g) && Mirror(h) && n in g && n in h
    requires i < |g[n].targets| && i <= |h[n].targets| && Stretch(g, n, h[n].targets, part)
    ensures var t := g[n].targets[i];
            && t in g[n].edgeAttributes
            && if HasEdge(h, n, t) then i + 1 <= |h[n].targets|
               else i == |h[n].targets| && Stretch(g, n, h[n].targets + [t], true)
  {
    var ts, us, t := g[n].targets, h[n].targets, g[n].targets[i];
    assert ListsItsEdges(g[n]) && ListsItsEdges(h[n]);
    assert i < |us| ==> us[i] == ts[i];
    if HasEdge(h, n, t) {
      var j :| 0 <= j < |us| && us[j] == t;
      assert ts[j] == t;
    }
  }

  lemma LinkedAttrs(h: GState, n: Id, t: Id, c: Attributes)
    requires n in h && t in h
    ensures var k := WithEdgeAttributes(WithEdge(h, n, t), n, t, c);
            forall a, x :: Attr(k, a, x) == if a == n && x == t then Some(c) else Attr(h, a, x)
  {
  }

  lemma LinkedLists(h: GState, n: Id, t: Id, c: Attributes)
    requires n in h && t in h && !HasEdge(h, n, t)
    ensures var k := WithEdgeAttributes(WithEdge(h, n, t), n, t, c);
            && (forall a :: a in k <==> a in h)
            && (forall a :: a in h ==> k[a].priority == h[a].priority)
            && (forall a :: a in h ==> k[a].targets == if a == n then h[n].targets + [t] else h[a].targets)
  {
  }

  /** A copy with no open node is the whole subgraph. */
  lemma FinishedCopy(g: GState, start: Id, h: GState)
    requires Mirror(g) && Mirror(h) && Partial(g, start, h, {}) && start in h
    ensures IsSubgraph(g, start, h)
  {
    forall a, x | a in h && x in Targets(g, a)
      ensures x in h
    {
      assert ListsItsEdges(h[a]);
      assert HasEdge(h, a, x) && HasSource(h, a, x);
    }
    SpanIsLeast(g, start, h.Keys);
    forall a, x
      ensures Attr(h, a, x) == if a in Span(g, start) then Attr(g, a, x) else None
    {
      if a in h && a in g {
        assert ListsItsEdges(h[a]) && ListsItsEdges(g[a]);
        assert HasEdge(h, a, x) <==> HasEdge(g, a, x);
      }
    }
  }

  /*** The algorithms ***/

  method CopyNode(src: Graph, dst: Graph, n: Id)
    requires src.Valid() && dst.Valid() && src != dst && src.nodeMap.Values !! dst.nodeMap.Values
    modifies dst, dst.nodeMap.Values
    ensures dst.Valid() && dst.State() == CopyNodeOf(src.State(), old(dst.State()), n)
    ensures fresh(dst.nodeMap.Values - old(dst.nodeMap.Values))
  {
    hide Mirror, WithNode;
    var _ := dst.AddNode(n);
    if src.HasNode(n) {
      var _ := dst.SetNodePriority(n, src.GetPriority(n));
    }
  }

  ghost predicate Apart(src: Graph, sub: Graph)
    reads src, sub
  {
    src != sub && src.nodeMap.Values !! sub.nodeMap.Values
  }

  /** Before the i-th target of n is linked, with the target itself copied over. */
  lemma LinkReady(g: GState, start: Id, h: GState, open: set<Id>, n: Id, i: nat)
    requires Mirror(g) && Mirror(h) && Partial(g, start, h, open + {n})
    requires n in Span(g, start) && n in g && i < |g[n].targets| && n in h && i <= |h[n].targets|
    ensures var t := g[n].targets[i];
            var k := CopyNodeOf(g, h, t);
            && t in Span(g, start) && t in g[n].edgeAttributes && (n, t) in EdgesOf(g)
            && Mirror(k) && t in k && n in k && Grows(h, k) && EdgesOf(k) == EdgesOf(h)
            && if HasEdge(k, n, t) then Partial(g, start, k, open + {n}) && i + 1 <= |k[n].targets|
               else
                 var l := WithEdgeAttributes(WithEdge(k, n, t), n, t, g[n].edgeAttributes[t]);
                 && Partial(g, start, l, open + {n} + {t}) && Grows(k, l)
                 && n in l && i + 1 <= |l[n].targets|
  {
    hide Span, Partial, WithEdge, WithEdgeAttributes, CopyNodeOf;
    var t := g[n].targets[i];
    TargetsAreReached(g, start, n, t);
    CopyNodeStep(g, start, h, open + {n}, t);
    var k := CopyNodeOf(g, h, t);
    if HasEdge(k, n, t) {
      assert (n, t) in EdgesOf(h);
      assert HasSource(h, n, t);
    }
    EdgeStep(g, start, k, open + {n} + {t}, n, i);
  }

  /** h with t copied over and the link from n to it made, if it was not there. */
  function Linked(g: GState, h: GState, n: Id, t: Id): GState
    requires n in h && n in g && t in g[n].edgeAttributes
  {
    var k := CopyNodeOf(g, h, t);
    CopyKeepsNodes(g, h, n, t);
    if HasEdge(k, n, t) then k
    else WithEdgeAttributes(WithEdge(k, n, t), n, t, g[n].edgeAttributes[t])
  }

  lemma CopyKeepsNodes(g: GState, h: GState, n: Id, t: Id)
    requires n in h
    ensures n in CopyNodeOf(g, h, t) && t in CopyNodeOf(g, h, t)
  {
  }

  lemma LinkedStep(g: GState, start: Id, h: GState, open: set<Id>, n: Id, i: nat)
    requires Mirror(g) && Mirror(h) && Partial(g, start, h, open + {n})
    requires n in Span(g, start) && n in g && i < |g[n].targets| && n in h && i <= |h[n].targets|
    ensures var t := g[n].targets[i];
            && t in Span(g, start) && t in g[n].edgeAttributes && (n, t) in EdgesOf(g)
            && var l := Linked(g, h, n, t);
               && Grows(h, l) && n in l && i + 1 <= |l[n].targets|
               && EdgesOf(l) == EdgesOf(h) + {(n, t)}
               && Partial(g, start, l, if HasEdge(h, n, t) then open + {n} else open + {n} + {t})
  {
    hide Partial, Span, CopyNodeOf, WithEdge, WithEdgeAttributes;
    LinkReady(g, start, h, open, n, i);
    var t := g[n].targets[i];
    var k := CopyNodeOf(g, h, t);
    assert HasEdge(k, n, t) <==> (n, t) in EdgesOf(k);
    assert HasEdge(h, n, t) <==> (n, t) in EdgesOf(h);
    if !HasEdge(k, n, t) {
      WithEdgeKeeps(k, n, t);
      WithEdgeAttributesKeeps(WithEdge(k, n, t), n, t, g[n].edgeAttributes[t]);
      GrowsOn(h, k, Linked(g, h, n, t));
    }
  }

  lemma GrowsAt(h: GState, k: GState, n: Id)
    requires Grows(h, k) && n in h
    ensures n in k && |h[n].targets| <= |k[n].targets|
  {
  }

  /** Copies a target over, then links it unless it is linked already. */
  method LinkTarget(src: Graph, sub: Graph, n: Id, t: Id) returns (isNew: bool)
    requires src.Valid() && sub.Valid() && Apart(src, sub)
    requires n in src.State() && t in src.State()[n].edgeAttributes && n in sub.State()
    modifies sub, sub.nodeMap.Values
    ensures sub.Valid() && fresh(sub.nodeMap.Values - old(sub.nodeMap.Values))
    ensures sub.State() == Linked(src.State(), old(sub.State()), n, t)
    ensures isNew <==> !HasEdge(old(sub.State()), n, t)
  {
    hide Graph.State, Graph.Valid, Mirror, CopyNodeOf, WithEdge, WithEdgeAttributes;
    ghost var g, h := src.State(), sub.State();
    AttrIs(g, n, t);
    CopyKeepsNodes(g, h, n, t);
    CopyNodeMirrors(g, h, t);
    assert HasEdge(h, n, t) <==> (n, t) in EdgesOf(h);
    CopyNode(src, sub, t);
    ghost var k := sub.State();
    assert HasEdge(k, n, t) <==> (n, t) in EdgesOf(k);
    WithEdgeIs(k, n, t);
    isNew := sub.AddEdgeBetween(n, t);
    if isNew {
      var _ := sub.SetEdgeAttributes(n, t, src.GetEdgeAttributes(n, t).value);
    }
  }

  lemma WithEdgeIs(k: GState, n: Id, t: Id)
    requires n in k && t in k
    ensures n in WithEdge(k, n, t) && t in WithEdge(k, n, t)
    ensures HasEdge(k, n, t) ==> WithEdge(k, n, t) == k
  {
  }

  /** Copies what is below n into sub. The nodes of open are those whose copying is still
      under way further up. */
  method Walk(src: Graph, sub: Graph, n: Id, ghost start: Id, ghost open: set<Id>)
    requires src.Valid() && sub.Valid() && Apart(src, sub)
    requires Partial(src.State(), start, sub.State(), open + {n}) && n in Span(src.State(), start)
    modifies sub, sub.nodeMap.Values
    ensures sub.Valid() && Apart(src, sub) && fresh(sub.nodeMap.Values - old(sub.nodeMap.Values))
    ensures Partial(src.State(), start, sub.State(), open - {n})
    ensures n in sub.State() && Grows(old(sub.State()), sub.State())
    ensures EdgesOf(old(sub.State())) <= EdgesOf(sub.State())
    decreases EdgesOf(src.State()) - EdgesOf(sub.State()), 1
  {
    hide Graph.State, Graph.Valid, Mirror, Partial, Span, EdgesOf, Grows, CopyNodeOf, Linked, NoDup;
    ghost var g := src.State();
    ghost var h0 := sub.State();
    CopyNodeStep(g, start, h0, open + {n}, n);
    CopyNode(src, sub, n);
    assert open + {n} + {n} == open + {n};
    var targets := src.GetTargets(n);
    for i := 0 to |targets|
      invariant sub.Valid() && Apart(src, sub) && src.State() == g && src.Valid()
      invariant fresh(sub.nodeMap.Values - old(sub.nodeMap.Values))
      invariant Partial(g, start, sub.State(), open + {n})
      invariant n in sub.State() && i <= |sub.State()[n].targets|
      invariant Grows(h0, sub.State()) && EdgesOf(h0) <= EdgesOf(sub.State())
    {
      ghost var h := sub.State();
      WalkTarget(src, sub, n, targets[i], start, open, i);
      GrowsOn(h0, h, sub.State());
    }
    CloseNode(g, start, sub.State(), open, n);
  }

  /** One target of n: what is below it is copied unless the link was there already. */
  method WalkTarget(src: Graph, sub: Graph, n: Id, t: Id, ghost start: Id, ghost open: set<Id>, ghost i: nat)
    requires src.Valid() && sub.Valid() && Apart(src, sub)
    requires Partial(src.State(), start, sub.State(), open + {n}) && n in Span(src.State(), start)
    requires n in src.State() && i < |src.State()[n].targets| && src.State()[n].targets[i] == t
    requires n in sub.State() && i <= |sub.State()[n].targets|
    modifies sub, sub.nodeMap.Values
    ensures sub.Valid() && Apart(src, sub) && fresh(sub.nodeMap.Values - old(sub.nodeMap.Values))
    ensures Partial(src.State(), start, sub.State(), open + {n})
    ensures n in sub.State() && i + 1 <= |sub.State()[n].targets| && Grows(old(sub.State()), sub.State())
    ensures EdgesOf(old(sub.State())) <= EdgesOf(sub.State())
    decreases EdgesOf(src.State()) - EdgesOf(sub.State()), 0
  {
    hide Graph.State, Graph.Valid, Mirror, Partial, Span, EdgesOf, Grows, CopyNodeOf, Linked, NoDup;
    ghost var g, h := src.State(), sub.State();
    LinkedStep(g, start, h, open, n, i);
    var isNew := LinkTarget(src, sub, n, t);
    ghost var l := sub.State();
    if isNew {
      Walk(src, sub, t, start, open + {n});
      OpenMore(g, start, sub.State(), open + {n} - {t}, open + {n});
      GrowsOn(h, l, sub.State());
      GrowsAt(l, sub.State(), n);
    }
  }

  /** The part of a graph below a node, as a graph of its own. */
  method GetSubgraph(src: Graph, start: Id) returns (sub: Graph)
    requires src.Valid()
    ensures sub.Valid() && fresh(sub) && fresh(sub.nodeMap.Values)
    ensures IsSubgraph(src.State(), start, sub.State())
  {
    hide Graph.State, Graph.Valid, Mirror;
    sub := new Graph(start);
    assert Apart(src, sub);
    Walk(src, sub, start, start, {});
    FinishedCopy(src.State(), start, sub.State());
  }

  /*** The same over the graph's public interface ***/

  /** Links first and copies the target after. */
  method LinkTargetThenCopy(src: Graph, sub: Graph, n: Id, t: Id) returns (isNew: bool)
    requires src.Valid() && sub.Valid() && Apart(src, sub)
    requires n in src.State() && t in src.State()[n].edgeAttributes && n in sub.State()
    requires t in sub.State() ==> sub.State()[t].priority == PriorityOf(src.State(), t)
    modifies sub, sub.nodeMap.Values
    ensures sub.Valid() && fresh(sub.nodeMap.Values - old(sub.nodeMap.Values))
    ensures sub.State() == Linked(src.State(), old(sub.State()), n, t)
    ensures isNew <==> !HasEdge(old(sub.State()), n, t)
  {
    hide Graph.State, Graph.Valid, Mirror, CopyNodeOf, WithEdge, WithEdgeAttributes, Linked;
    ghost var g, h := src.State(), sub.State();
    AttrIs(g, n, t);
    LinkedEitherWay(g, h, n, t);
    isNew := sub.AddEdge(n, t);
    if isNew {
      CopyNode(src, sub, t);
      var _ := sub.AddEdge(n, t);
      var _ := sub.SetEdgeAttributes(n, t, src.GetEdgeAttributes(n, t).value);
    }
  }

  lemma LinkedEitherWay(g: GState, h: GState, n: Id, t: Id)
    requires Mirror(h) && n in h && n in g && t in g[n].edgeAttributes
    requires t in h ==> h[t].priority == PriorityOf(g, t)
    ensures var a := WithEdge(WithNode(WithNode(h, n), t), n, t);
            && n in a && t in a
            && if HasEdge(h, n, t) then a == Linked(g, h, n, t)
               else
                 var b := CopyNodeOf(g, a, t);
                 && HasEdge(b, n, t) && n in b && t in b
                 && WithEdge(WithNode(WithNode(b, n), t), n, t) == b
                 && WithEdgeAttributes(b, n, t, g[n].edgeAttributes[t]) == Linked(g, h, n, t)
  {
    var k := CopyNodeOf(g, h, t);
    CopyNodeFacts(g, h, t);
    var a := WithEdge(WithNode(WithNode(h, n), t), n, t);
    if HasEdge(h, n, t) {
      assert HasSource(h, n, t);
    } else {
      var b := CopyNodeOf(g, a, t);
      assert !HasEdge(k, n, t);
      forall x | x in b
        ensures b[x] == WithEdge(k, n, t)[x]
      {
      }
      assert b == WithEdge(k, n, t);
    }
  }

  method WalkDown(src: Graph, sub: Graph, n: Id, ghost start: Id, ghost open: set<Id>)
    requires src.Valid() && sub.Valid() && Apart(src, sub)
    requires Partial(src.State(), start, sub.State(), open + {n}) && n in Span(src.State(), start)
    modifies sub, sub.nodeMap.Values
    ensures sub.Valid() && Apart(src, sub) && fresh(sub.nodeMap.Values - old(sub.nodeMap.Values))
    ensures Partial(src.State(), start, sub.State(), open - {n})
    ensures n in sub.State() && Grows(old(sub.State()), sub.State())
    ensures EdgesOf(old(sub.State())) <= EdgesOf(sub.State())
    decreases EdgesOf(src.State()) - EdgesOf(sub.State()), 1
  {
    hide Graph.State, Graph.Valid, Mirror, Partial, Span, EdgesOf, Grows, CopyNodeOf, Linked, NoDup;
    ghost var g := src.State();
    ghost var h0 := sub.State();
    CopyNodeStep(g, start, h0, open + {n}, n);
    CopyNode(src, sub, n);
    assert open + {n} + {n} == open + {n};
    var targets := src.GetTargets(n);
    for i := 0 to |targets|
      invariant sub.Valid() && Apart(src, sub) && src.State() == g && src.Valid()
      invariant fresh(sub.nodeMap.Values - old(sub.nodeMap.Values))
      invariant Partial(g, start, sub.State(), open + {n})
      invariant n in sub.State() && i <= |sub.State()[n].targets|
      invariant Grows(h0, sub.State()) && EdgesOf(h0) <= EdgesOf(sub.State())
    {
      ghost var h := sub.State();
      WalkDownTarget(src, sub, n, targets[i], start, open, i);
      GrowsOn(h0, h, sub.State());
    }
    CloseNode(g, start, sub.State(), open, n);
  }

  /** The same over the public interface. */
  method WalkDownTarget(src: Graph, sub: Graph, n: Id, t: Id, ghost start: Id, ghost open: set<Id>, ghost i: nat)
    requires src.Valid() && sub.Valid() && Apart(src, sub)
    requires Partial(src.State(), start, sub.State(), open + {n}) && n in Span(src.State(), start)
    requires n in src.State() && i < |src.State()[n].targets| && src.State()[n].targets[i] == t
    requires n in sub.State() && i <= |sub.State()[n].targets|
    modifies sub, sub.nodeMap.Values
    ensures sub.Valid() && Apart(src, sub) && fresh(sub.nodeMap.Values - old(sub.nodeMap.Values))
    ensures Partial(src.State(), start, sub.State(), open + {n})
    ensures n in sub.State() && i + 1 <= |sub.State()[n].targets| && Grows(old(sub.State()), sub.State())
    ensures EdgesOf(old(sub.State())) <= EdgesOf(sub.State())
    decreases EdgesOf(src.State()) - EdgesOf(sub.State()), 0
  {
    hide Graph.State, Graph.Valid, Mirror, Partial, Span, EdgesOf, Grows, CopyNodeOf, Linked, NoDup;
    ghost var g, h := src.State(), sub.State();
    LinkedStep(g, start, h, open, n, i);
    PartialPriority(g, start, h, open + {n}, t);
    var isNew := LinkTargetThenCopy(src, sub, n, t);
    ghost var l := sub.State();
    if isNew {
      WalkDown(src, sub, t, start, open + {n});
      OpenMore(g, start, sub.State(), open + {n} - {t}, open + {n});
      GrowsOn(h, l, sub.State());
      GrowsAt(l, sub.State(), n);
    }
  }

  lemma PartialPriority(g: GState, start: Id, h: GState, open: set<Id>, t: Id)
    requires Partial(g, start, h, open)
    ensures t in h ==> h[t].priority == PriorityOf(g, t)
  {
  }

  /** The slow form: it gives the very graph that GetSubgraph gives. */
  method GetSubgraphByInterface(src: Graph, start: Id) returns (sub: Graph)
    requires src.Valid()
    ensures sub.Valid() && fresh(sub) && fresh(sub.nodeMap.Values)
    ensures IsSubgraph(src.State(), start, sub.State())
  {
    hide Graph.State, Graph.Valid, Mirror;
    sub := new Graph(start);
    assert Apart(src, sub);
    WalkDown(src, sub, start, start, {});
    FinishedCopy(src.State(), start, sub.State());
  }

  /*** Queries that build no graph ***/

  /** Every visited node outside open has all its targets visited, and only nodes of the
      span are visited. */
  ghost predicate Swept(g: GState, start: Id, visited: set<Id>, open: set<Id>) {
    && visited <= Span(g, start)
    && forall a, x :: a in visited && a !in open && x in Targets(g, a) ==> x in visited
  }

  method VisitBelow(src: Graph, n: Id, visited: set<Id>, ghost start: Id, ghost open: set<Id>)
    returns (all: set<Id>)
    requires src.Valid() && n in Span(src.State(), start) && Swept(src.State(), start, visited, open)
    ensures visited <= all && n in all && Swept(src.State(), start, all, open)
    decreases Span(src.State(), start) - visited
  {
    hide Graph.State, Graph.Valid, Mirror, Span;
    if n in visited {
      return visited;
    }
    ghost var g := src.State();
    all := visited + {n};
    var targets := src.GetTargets(n);
    for i := 0 to |targets|
      invariant visited + {n} <= all && Swept(g, start, all, open + {n})
      invariant forall k :: 0 <= k < i ==> targets[k] in all
    {
      TargetsAreReached(g, start, n, targets[i]);
      all := VisitBelow(src, targets[i], all, start, open + {n});
    }
  }

  /** The node names of GetSubgraph. */
  method GetSubgraphNodeSet(src: Graph, start: Id) returns (visited: set<Id>)
    requires src.Valid()
    ensures visited == Span(src.State(), start)
  {
    hide Graph.State, Graph.Valid, Mirror;
    visited := VisitBelow(src, start, {}, start, {});
    SpanIsLeast(src.State(), start, visited);
  }

  /** The node count of GetSubgraph. */
  method GetSubgraphNodeCount(src: Graph, start: Id) returns (n: nat)
    requires src.Valid()
    ensures n == |Span(src.State(), start)|
  {
    var nodes := GetSubgraphNodeSet(src, start);
    n := |nodes|;
  }

  /** The search stops as soon as the target has been found. */
  method SeekBelow(src: Graph, n: Id, target: Id, visited: set<Id>, found: bool,
                   ghost start: Id, ghost open: set<Id>)
    returns (all: set<Id>, hasNode: bool)
    requires src.Valid() && n in Span(src.State(), start)
    requires if found then target in Span(src.State(), start)
             else Swept(src.State(), start, visited, open) && target !in visited
    ensures visited <= all
    ensures if hasNode then target in Span(src.State(), start)
            else !found && n in all && Swept(src.State(), start, all, open) && target !in all
    decreases Span(src.State(), start) - visited
  {
    hide Graph.State, Graph.Valid, Mirror, Span;
    if found || n in visited {
      return visited, found;
    }
    ghost var g := src.State();
    all := visited + {n};
    if n == target {
      return all, true;
    }
    hasNode := false;
    var targets := src.GetTargets(n);
    for i := 0 to |targets|
      invariant visited + {n} <= all
      invariant if hasNode then target in Span(g, start)
                else Swept(g, start, all, open + {n}) && target !in all && forall k :: 0 <= k < i ==> targets[k] in all
    {
      TargetsAreReached(g, start, n, targets[i]);
      all, hasNode := SeekBelow(src, targets[i], target, all, hasNode, start, open + {n});
    }
  }

  /** Whether GetSubgraph would have the node. */
  method GetSubgraphHasNode(src: Graph, start: Id, target: Id) returns (hasNode: bool)
    requires src.Valid()
    ensures hasNode <==> target in Span(src.State(), start)
  {
    hide Graph.State, Graph.Valid, Mirror;
    var all;
    all, hasNode := SeekBelow(src, start, target, {}, false, start, {});
    if !hasNode {
      SpanIsLeast(src.State(), start, all);
    }
  }

  method IsReachable(src: Graph, source: Id, target: Id) returns (r: bool)
    requires src.Valid()
    ensures r <==> source in src.State() && target in src.State() && Reach(EdgesOf(src.State()), source, target)
  {
    r := false;
    if src.HasNode(source) && src.HasNode(target) {
      ReachRefl(EdgesOf(src.State()), source);
      r := GetSubgraphHasNode(src, source, target);
    }
  }
}
