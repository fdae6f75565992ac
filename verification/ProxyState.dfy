/** The graph value after copies of a proxy's edges have been given to other nodes, and
    what collapsing edges of one colour keeps along a whole run. */
module ProxyState {
  import opened Wrappers
  import opened Digraph
  import opened GraphState
  import opened ProxyCollapse

  /** The names of ts that are not in known, in order. */
  function Unknown(ts: seq<Id>, known: set<Id>): (r: seq<Id>)
    ensures forall t :: t in r <==> t in ts && t !in known
    ensures NoDup(ts) ==> NoDup(r)
  {
    if ts == [] then []
    else
      var k := |ts| - 1;
      assert ts == ts[..k] + [ts[k]];
      var r := Unknown(ts[..k], known);
      if ts[k] in known then r else r + [ts[k]]
  }

  ghost function Elems(ts: seq<Id>): set<Id> {
    set t | t in ts
  }

  ghost predicate SameNodes(g: GState, h: GState) {
    forall a :: (a in h <==> a in g) && (a in g ==> h[a].priority == g[a].priority)
  }

  ghost predicate AttrsCopied(g: GState, h: GState, D: set<Id>, p: Id, T: set<Id>) {
    forall a, x :: Attr(h, a, x) == if a in D && x in T then Attr(g, p, x) else Attr(g, a, x)
  }

  function WithUnknown(n: NodeRec, ts: seq<Id>): seq<Id> {
    n.targets + Unknown(ts, n.edgeAttributes.Keys)
  }

  ghost predicate ListsCopied(g: GState, h: GState, D: set<Id>, ts: seq<Id>) {
    forall a :: a in g && a in h ==>
      h[a].targets == if a in D then WithUnknown(g[a], ts) else g[a].targets
  }

  /** h is g after every node of D has been given copies of p's edges to the targets ts:
      new targets go to the end of its list, attributes of p's edges overwrite its own,
      and nothing else changes. */
  ghost predicate CopiedInto(g: GState, h: GState, D: set<Id>, p: Id, ts: seq<Id>) {
    SameNodes(g, h) && AttrsCopied(g, h, D, p, Elems(ts)) && ListsCopied(g, h, D, ts)
  }

  lemma CopiedNothing(g: GState, D: set<Id>, p: Id, ts: seq<Id>)
    requires D == {} || ts == []
    ensures CopiedInto(g, g, D, p, ts)
  {
  }

  /** h2 is h with the one edge s -> t, old or new, given the attributes c. */
  ghost predicate OneCopy(h: GState, h2: GState, s: Id, t: Id, c: Attributes) {
    && SameNodes(h, h2)
    && (forall a, x :: Attr(h2, a, x) == if a == s && x == t then Some(c) else Attr(h, a, x))
    && (forall a :: a in h && a in h2 ==>
          h2[a].targets == if a == s && Attr(h, s, t).None? then h[a].targets + [t] else h[a].targets)
  }

  lemma EdgeMade(h: GState, s: Id, t: Id)
    requires s in h && t in h
    ensures var k := WithEdge(h, s, t);
            && SameNodes(h, k)
            && (forall a, x :: Attr(k, a, x) ==
                               if a == s && x == t && Attr(h, s, t).None? then Some(map[]) else Attr(h, a, x))
            && (forall a :: a in h ==>
                  k[a].targets == if a == s && Attr(h, s, t).None? then h[a].targets + [t] else h[a].targets)
  {
  }

  lemma AttributesSet(k: GState, s: Id, t: Id, c: Attributes)
    requires s in k && Attr(k, s, t).Some?
    ensures var h2 := WithEdgeAttributes(k, s, t, c);
            && SameNodes(k, h2)
            && (forall a, x :: Attr(h2, a, x) == if a == s && x == t then Some(c) else Attr(k, a, x))
            && (forall a :: a in k ==> h2[a].targets == k[a].targets)
  {
  }

  lemma OneCopyMade(h: GState, s: Id, t: Id, c: Attributes)
    requires s in h && t in h
    ensures OneCopy(h, WithEdgeAttributes(WithEdge(h, s, t), s, t, c), s, t, c)
  {
    hide WithEdge, WithEdgeAttributes, Attr;
    EdgeMade(h, s, t);
    AttributesSet(WithEdge(h, s, t), s, t, c);
  }

  /** One more target for s. */
  lemma CopiedTarget(g: GState, h: GState, h2: GState, s: Id, p: Id, v: seq<Id>, t: Id, c: Attributes)
    requires CopiedInto(g, h, {s}, p, v) && t !in v
    requires Attr(h, p, t) == Some(c) && OneCopy(h, h2, s, t, c)
    ensures CopiedInto(g, h2, {s}, p, v + [t])
  {
    assert Elems(v + [t]) == Elems(v) + {t} && t !in Elems(v);
    hide Attr, Elems, WithUnknown;
    assert SameNodes(g, h2);
    assert AttrsCopied(g, h2, {s}, p, Elems(v + [t])) by {
      assert Attr(g, p, t) == Some(c);
    }
    assert Attr(h, s, t) == Attr(g, s, t);
    CopiedList(g, h, h2, s, v, t, c);
  }

  lemma CopiedList(g: GState, h: GState, h2: GState, s: Id, v: seq<Id>, t: Id, c: Attributes)
    requires SameNodes(g, h) && ListsCopied(g, h, {s}, v) && OneCopy(h, h2, s, t, c)
    requires Attr(h, s, t) == Attr(g, s, t)
    ensures ListsCopied(g, h2, {s}, v + [t])
  {
    hide WithUnknown, Attr;
    if s in g {
      WithUnknownStep(g[s], v, t);
      AttrNone(g, s, t);
    }
  }

  lemma AttrNone(g: GState, s: Id, t: Id)
    requires s in g
    ensures Attr(g, s, t).None? <==> t !in g[s].edgeAttributes
  {
  }

  lemma WithUnknownStep(n: NodeRec, v: seq<Id>, t: Id)
    ensures WithUnknown(n, v + [t]) ==
            if t in n.edgeAttributes then WithUnknown(n, v) else WithUnknown(n, v) + [t]
  {
    UnknownStep(v, t, n.edgeAttributes.Keys);
  }

  lemma CopyReady(g: GState, h: GState, s: Id, p: Id, ts: seq<Id>, i: nat)
    requires Mirror(h) && i < |ts| && NoDup(ts) && CopiedInto(g, h, {s}, p, ts[..i])
    requires Attr(g, p, ts[i]).Some?
    ensures p in h && ts[i] in h && ts[i] in h[p].edgeAttributes
  {
    assert ts[i] !in ts[..i];
    assert Attr(h, p, ts[i]) == Attr(g, p, ts[i]);
    assert HasEdge(h, p, ts[i]) && HasSource(h, p, ts[i]);
  }

  lemma CopyDone(g: GState, h: GState, s: Id, p: Id, ts: seq<Id>, i: nat)
    requires i < |ts| && NoDup(ts) && CopiedInto(g, h, {s}, p, ts[..i])
    requires s in h && p in h && ts[i] in h && ts[i] in h[p].edgeAttributes
    ensures CopiedInto(g, WithEdgeAttributes(WithEdge(h, s, ts[i]), s, ts[i], h[p].edgeAttributes[ts[i]]),
                       {s}, p, ts[..i + 1])
  {
    var t, c := ts[i], h[p].edgeAttributes[ts[i]];
    assert t !in ts[..i] && ts[..i + 1] == ts[..i] + [t];
    OneCopyMade(h, s, t, c);
    hide CopiedInto, OneCopy;
    CopiedTarget(g, h, WithEdgeAttributes(WithEdge(h, s, t), s, t, c), s, p, ts[..i], t, c);
  }

  /** One more source. */
  lemma CopiedSource(g: GState, h: GState, h2: GState, D: set<Id>, s: Id, p: Id, ts: seq<Id>)
    requires CopiedInto(g, h, D, p, ts) && CopiedInto(h, h2, {s}, p, ts) && s !in D
    ensures CopiedInto(g, h2, D + {s}, p, ts)
  {
    assert SameNodes(g, h2);
    assert s in g ==> WithUnknown(h[s], ts) == WithUnknown(g[s], ts) by {
      if s in g {
        forall x
          ensures x in h[s].edgeAttributes <==> x in g[s].edgeAttributes
        {
          assert Attr(h, s, x) == Attr(g, s, x);
        }
        assert h[s].edgeAttributes.Keys == g[s].edgeAttributes.Keys;
      }
    }
    hide Attr, Elems, WithUnknown, SameNodes;
    assert AttrsCopied(g, h2, D + {s}, p, Elems(ts));
    CopiedListsMore(g, h, h2, D, s, ts);
  }

  lemma CopiedListsMore(g: GState, h: GState, h2: GState, D: set<Id>, s: Id, ts: seq<Id>)
    requires SameNodes(g, h) && ListsCopied(g, h, D, ts) && ListsCopied(h, h2, {s}, ts) && s !in D
    requires s in g ==> WithUnknown(h[s], ts) == WithUnknown(g[s], ts)
    ensures ListsCopied(g, h2, D + {s}, ts)
  {
    hide WithUnknown;
  }

  lemma UnknownStep(ts: seq<Id>, t: Id, known: set<Id>)
    ensures Unknown(ts + [t], known) == if t in known then Unknown(ts, known) else Unknown(ts, known) + [t]
  {
    assert (ts + [t])[..|ts|] == ts;
  }

  /*** One proxy edge ***/

  /** k is g with s -> p replaced by copies of p's edges. */
  ghost predicate ProxyEdgeGone(g: GState, k: GState, s: Id, p: Id) {
    s in g && p in g && SameNodes(g, k) && AttrsMoved(g, k, s, p) && ListsMoved(g, k, s, p)
  }

  ghost predicate AttrsMoved(g: GState, k: GState, s: Id, p: Id) {
    forall a, x :: Attr(k, a, x) ==
                   if a != s then Attr(g, a, x)
                   else if x == p then None
                   else if Attr(g, p, x).Some? then Attr(g, p, x) else Attr(g, s, x)
  }

  ghost predicate ListsMoved(g: GState, k: GState, s: Id, p: Id)
    requires p in g
  {
    forall a :: a in g && a in k ==>
      k[a].targets == if a == s then Remove(WithUnknown(g[s], g[p].targets), p) else g[a].targets
  }

  lemma ProxyEdgeGoes(g: GState, h: GState, s: Id, p: Id)
    requires Mirror(g) && s in g && p in g && s in h && p in h
    requires CopiedInto(g, h, {s}, p, g[p].targets)
    ensures ProxyEdgeGone(g, WithoutEdge(h, s, p), s, p)
  {
    hide Mirror, WithUnknown, Remove, Attr, Elems, WithoutEdge, AttrsMoved, AttrsCopied;
    var k := WithoutEdge(h, s, p);
    WithoutEdgeNodes(h, s, p);
    assert SameNodes(g, k);
    AttrsMove(g, h, s, p);
    WithoutEdgeLists(h, s, p);
  }

  lemma AttrsMove(g: GState, h: GState, s: Id, p: Id)
    requires Mirror(g) && p in g && s in h && p in h
    requires AttrsCopied(g, h, {s}, p, Elems(g[p].targets))
    ensures AttrsMoved(g, WithoutEdge(h, s, p), s, p)
  {
    var k, T := WithoutEdge(h, s, p), Elems(g[p].targets);
    forall x
      ensures x in T <==> Attr(g, p, x).Some?
    {
      assert ListsItsEdges(g[p]);
    }
    WithoutEdgeAttrs(h, s, p);
    hide Mirror, Attr, Elems, WithoutEdge;
    forall a, x
      ensures Attr(k, a, x) == if a != s then Attr(g, a, x)
                               else if x == p then None
                               else if Attr(g, p, x).Some? then Attr(g, p, x) else Attr(g, s, x)
    {
      assert Attr(h, a, x) == if a in {s} && x in T then Attr(g, p, x) else Attr(g, a, x);
    }
  }

  lemma WithoutEdgeAttrs(h: GState, s: Id, p: Id)
    requires s in h && p in h
    ensures forall a, x :: Attr(WithoutEdge(h, s, p), a, x) == if a == s && x == p then None else Attr(h, a, x)
  {
  }

  lemma WithoutEdgeNodes(h: GState, s: Id, p: Id)
    requires s in h && p in h
    ensures SameNodes(h, WithoutEdge(h, s, p))
  {
  }

  lemma WithoutEdgeLists(h: GState, s: Id, p: Id)
    requires s in h && p in h
    ensures var k := WithoutEdge(h, s, p);
            forall a :: a in h && a in k ==>
              k[a].targets == if a == s then Remove(h[a].targets, p) else h[a].targets
  {
  }

  lemma ProxyEdgeCollapses(g: GState, k: GState, s: Id, p: Id, color: string)
    requires ProxyEdgeGone(g, k, s, p)
    ensures Collapses(ColorEdges(g, color), OtherEdges(g, color), s, p,
                      ColorEdges(k, color), OtherEdges(k, color))
    ensures Bypasses(EdgesOf(g), s, p, EdgesOf(k))
  {
    var R, B := ColorEdges(g, color), OtherEdges(g, color);
    var R2, B2 := ColorEdges(k, color), OtherEdges(k, color);
    forall a, x
      ensures (a, x) in R2 <==> Takes(R, B, s, p, R, a, x)
      ensures (a, x) in B2 <==> Takes(R, B, s, p, B, a, x)
    {
      ColorsByAttr(g, color, a, x);
      ColorsByAttr(g, color, s, x);
      ColorsByAttr(g, color, p, x);
      ColorsByAttr(k, color, a, x);
      hide ColorEdges, OtherEdges, HasColor, Attr;
    }
    CollapsesBypasses(R, B, s, p, R2, B2);
  }

  lemma ColorsByAttr(g: GState, color: string, a: Id, x: Id)
    ensures (a, x) in ColorEdges(g, color) <==>
            Attr(g, a, x).Some? && ColorValue(Attr(g, a, x).value) == Quoted(color)
    ensures (a, x) in OtherEdges(g, color) <==>
            Attr(g, a, x).Some? && ColorValue(Attr(g, a, x).value) != Quoted(color)
  {
  }

  /*** A whole run ***/

  /** What holds after any number of edges of the colour have been collapsed, in any
      order, from g0 on, whatever cycles there are. */
  ghost predicate Collapsing(g0: GState, g: GState, color: string) {
    && SameNodes(g0, g) && Shrunk(g0, g, color) && Sound(g0, g, color) && Complete(g0, g, color)
    && Unentered(g0, g, color) && Reaches(g0, g, color) && Unleft(g0, g, color)
  }

  ghost predicate Shrunk(g0: GState, g: GState, color: string) {
    && (forall a, x :: (a, x) in ColorEdges(g, color) ==> Plus(ColorEdges(g0, color), a, x))
    && ChainsOf(Loopless(ColorEdges(g0, color)), ColorEdges(g, color))
  }

  ghost predicate Sound(g0: GState, g: GState, color: string) {
    forall a, x :: ViaColor(g, color, a, x) ==> ViaColor(g0, color, a, x)
  }

  /** Nothing is lost where no chain within the colour competes with another one. */
  ghost predicate Complete(g0: GState, g: GState, color: string) {
    Acyclic(Loopless(ColorEdges(g0, color))) && NoClash(ColorEdges(g0, color), OtherEdges(g0, color)) ==>
      forall a, x :: ViaColor(g0, color, a, x) ==> ViaColor(g, color, a, x)
  }

  ghost predicate Unentered(g0: GState, g: GState, color: string) {
    forall a, x :: (a, x) in OtherEdges(g0, color) && !EnteredBy(g0, color, x) ==> (a, x) in OtherEdges(g, color)
  }

  /** What no edge of the colour enters is reached from the same nodes as before. */
  ghost predicate Reaches(g0: GState, g: GState, color: string) {
    forall a, x :: !EnteredBy(g0, color, x) ==> (Plus(EdgesOf(g), a, x) <==> Plus(EdgesOf(g0), a, x))
  }

  /** A node that no edge of the colour leaves keeps its targets in order, and its edges
      their attributes. */
  ghost predicate Unleft(g0: GState, g: GState, color: string) {
    forall a :: a in g0 && a in g && !LeftBy(g0, color, a) ==>
      g[a].targets == g0[a].targets && forall x :: Attr(g, a, x) == Attr(g0, a, x)
  }

  ghost predicate LeftBy(g: GState, color: string, a: Id) {
    exists x :: (a, x) in ColorEdges(g, color)
  }

  /** Edges of the colour and then one other edge lead from a to x. */
  ghost predicate ViaColor(g: GState, color: string, a: Id, x: Id) {
    Via(ColorEdges(g, color), OtherEdges(g, color), a, x)
  }

  ghost predicate EnteredBy(g: GState, color: string, x: Id) {
    exists a :: (a, x) in ColorEdges(g, color)
  }

  ghost predicate CollapsesTo(g: GState, k: GState, color: string, s: Id, p: Id) {
    && (s, p) in ColorEdges(g, color)
    && Collapses(ColorEdges(g, color), OtherEdges(g, color), s, p, ColorEdges(k, color), OtherEdges(k, color))
    && Bypasses(EdgesOf(g), s, p, EdgesOf(k))
  }

  lemma CollapsingStart(g0: GState, color: string)
    ensures Collapsing(g0, g0, color)
  {
    var R := ColorEdges(g0, color);
    forall a, x | (a, x) in R
      ensures Plus(R, a, x) && (a == x || Plus(Loopless(R), a, x))
    {
      ReachRefl(R, x);
      ReachRefl(Loopless(R), x);
    }
  }

  lemma ColorStaysAcyclic(g0: GState, g: GState, color: string)
    requires Shrunk(g0, g, color) && Acyclic(Loopless(ColorEdges(g0, color)))
    ensures Acyclic(Loopless(ColorEdges(g, color)))
  {
    var L0, L := Loopless(ColorEdges(g0, color)), Loopless(ColorEdges(g, color));
    forall v
      ensures !Plus(L, v, v)
    {
      if Plus(L, v, v) {
        PlusTransfers(L, L0, v, v);
      }
    }
  }

  lemma NoClashStays(g0: GState, g: GState, color: string)
    requires Shrunk(g0, g, color) && Sound(g0, g, color)
    requires NoClash(ColorEdges(g0, color), OtherEdges(g0, color))
    ensures NoClash(ColorEdges(g, color), OtherEdges(g, color))
  {
    forall a, x | ViaColor(g, color, a, x)
      ensures !Plus(ColorEdges(g, color), a, x)
    {
      if Plus(ColorEdges(g, color), a, x) {
        PlusTransfers(ColorEdges(g, color), ColorEdges(g0, color), a, x);
      }
    }
  }

  lemma ShrunkStep(g0: GState, g: GState, k: GState, color: string, s: Id, p: Id)
    requires Shrunk(g0, g, color) && CollapsesTo(g, k, color, s, p)
    ensures Shrunk(g0, k, color)
  {
    forall a, x | (a, x) in ColorEdges(k, color)
      ensures Plus(ColorEdges(g0, color), a, x)
    {
      CollapseShrinksColor(ColorEdges(g, color), OtherEdges(g, color), s, p,
                           ColorEdges(k, color), OtherEdges(k, color), a, x);
      PlusTransfers(ColorEdges(g, color), ColorEdges(g0, color), a, x);
    }
    ChainsStep(Loopless(ColorEdges(g0, color)), ColorEdges(g, color), OtherEdges(g, color), s, p,
               ColorEdges(k, color), OtherEdges(k, color));
  }

  lemma SoundStep(g0: GState, g: GState, k: GState, color: string, s: Id, p: Id)
    requires Sound(g0, g, color) && CollapsesTo(g, k, color, s, p)
    ensures Sound(g0, k, color)
  {
    forall a, x | ViaColor(k, color, a, x)
      ensures ViaColor(g0, color, a, x)
    {
      CollapseIsSound(ColorEdges(g, color), OtherEdges(g, color), s, p,
                      ColorEdges(k, color), OtherEdges(k, color), a, x);
      assert ViaColor(g, color, a, x);
    }
  }

  lemma CompleteStep(g0: GState, g: GState, k: GState, color: string, s: Id, p: Id)
    requires Shrunk(g0, g, color) && Sound(g0, g, color) && Complete(g0, g, color)
    requires CollapsesTo(g, k, color, s, p)
    ensures Complete(g0, k, color)
  {
    var R, B := ColorEdges(g, color), OtherEdges(g, color);
    if Acyclic(Loopless(ColorEdges(g0, color))) && NoClash(ColorEdges(g0, color), OtherEdges(g0, color)) {
      ColorStaysAcyclic(g0, g, color);
      NoClashStays(g0, g, color);
      forall a, x | ViaColor(g0, color, a, x)
        ensures ViaColor(k, color, a, x)
      {
        assert ViaColor(g, color, a, x);
        var u :| Reach(R, a, u) && (u, x) in B;
        LooplessReach(R, a, u);
        var w :| WalkFromTo(Loopless(R), w, a, u);
        CollapseIsComplete(R, B, s, p, ColorEdges(k, color), OtherEdges(k, color), w, a, u, x);
      }
    }
  }

  /** An edge into a node that no edge of the colour enters is never overwritten. */
  lemma UnenteredStep(g0: GState, g: GState, k: GState, color: string, s: Id, p: Id)
    requires Shrunk(g0, g, color) && Unentered(g0, g, color) && CollapsesTo(g, k, color, s, p)
    ensures Unentered(g0, k, color)
  {
    var R, B := ColorEdges(g, color), OtherEdges(g, color);
    forall a, x | (a, x) in OtherEdges(g0, color) && !EnteredBy(g0, color, x)
      ensures (a, x) in OtherEdges(k, color)
    {
      forall b
        ensures (b, x) !in R
      {
        PlusLast(ColorEdges(g0, color), b, x);
      }
      assert (a, x) in B && (p, x) !in R && (s, p) in R;
      assert (a, x) in OtherEdges(k, color) <==> Takes(R, B, s, p, B, a, x);
    }
  }

  lemma ReachesStep(g0: GState, g: GState, k: GState, color: string, s: Id, p: Id)
    requires Shrunk(g0, g, color) && Reaches(g0, g, color) && CollapsesTo(g, k, color, s, p)
    ensures Reaches(g0, k, color)
  {
    forall a, x | !EnteredBy(g0, color, x)
      ensures Plus(EdgesOf(k), a, x) <==> Plus(EdgesOf(g0), a, x)
    {
      if x == p {
        PlusLast(ColorEdges(g0, color), s, p);
      } else {
        BypassKeepsReach(EdgesOf(g), s, p, EdgesOf(k), a, x);
      }
    }
  }

  lemma UnleftStep(g0: GState, g: GState, k: GState, color: string, s: Id, p: Id)
    requires SameNodes(g0, g) && Shrunk(g0, g, color) && Unleft(g0, g, color)
    requires ProxyEdgeGone(g, k, s, p) && HasColor(g, color, s, p)
    ensures Unleft(g0, k, color)
  {
    hide Attr, ProxyEdgeGone, HasColor;
    LeavesAlready(g0, g, color, s, p);
    forall a | a in g0 && a in k && !LeftBy(g0, color, a)
      ensures k[a].targets == g0[a].targets && forall x :: Attr(k, a, x) == Attr(g0, a, x)
    {
      assert a in g && a != s;
      OthersStay(g, k, s, p, a);
    }
  }

  lemma LeavesAlready(g0: GState, g: GState, color: string, s: Id, p: Id)
    requires Shrunk(g0, g, color) && HasColor(g, color, s, p)
    ensures LeftBy(g0, color, s)
  {
    hide HasColor, Reach;
    assert (s, p) in ColorEdges(g, color);
    var c :| (s, c) in ColorEdges(g0, color) && Reach(ColorEdges(g0, color), c, p);
  }

  lemma OthersStay(g: GState, k: GState, s: Id, p: Id, a: Id)
    requires ProxyEdgeGone(g, k, s, p) && a in g && a != s
    ensures a in k && k[a].targets == g[a].targets && forall x :: Attr(k, a, x) == Attr(g, a, x)
  {
    hide Attr, WithUnknown, Remove;
  }

  ghost function Load(g0: GState, g: GState, color: string): nat {
    Weight(Loopless(ColorEdges(g0, color)), g0.Keys, ColorEdges(g, color))
  }

  lemma LoadStep(g0: GState, g: GState, k: GState, color: string, s: Id, p: Id)
    requires Mirror(g) && SameNodes(g0, g)
    requires Shrunk(g0, g, color) && Acyclic(Loopless(ColorEdges(g0, color))) && CollapsesTo(g, k, color, s, p)
    ensures Load(g0, k, color) < Load(g0, g, color)
  {
    forall a, x | (a, x) in ColorEdges(g, color)
      ensures a in g0.Keys && x in g0.Keys
    {
      assert HasEdge(g, a, x) && HasSource(g, a, x);
    }
    CollapseLightens(Loopless(ColorEdges(g0, color)), g0.Keys, ColorEdges(g, color), OtherEdges(g, color), s, p,
                     ColorEdges(k, color), OtherEdges(k, color));
  }

  lemma GoneCollapses(g0: GState, g: GState, k: GState, color: string, s: Id, p: Id)
    requires SameNodes(g0, g) && ProxyEdgeGone(g, k, s, p) && HasColor(g, color, s, p)
    ensures SameNodes(g0, k) && CollapsesTo(g, k, color, s, p)
  {
    ProxyEdgeCollapses(g, k, s, p, color);
  }

  /** One more collapse; and it makes the coloured edges lighter unless they make a cycle of
      more than one node. */
  lemma CollapsingStep(g0: GState, g: GState, k: GState, color: string, s: Id, p: Id)
    requires Mirror(g) && Collapsing(g0, g, color)
    requires ProxyEdgeGone(g, k, s, p) && HasColor(g, color, s, p)
    ensures Collapsing(g0, k, color)
    ensures Acyclic(Loopless(ColorEdges(g0, color))) ==> Load(g0, k, color) < Load(g0, g, color)
  {
    hide CollapsesTo, Shrunk, Sound, Complete, Unentered, Reaches, Unleft, Load, Mirror, SameNodes;
    hide ProxyEdgeGone, HasColor, ColorEdges, OtherEdges, Acyclic;
    GoneCollapses(g0, g, k, color, s, p);
    ShrunkStep(g0, g, k, color, s, p);
    SoundStep(g0, g, k, color, s, p);
    CompleteStep(g0, g, k, color, s, p);
    UnenteredStep(g0, g, k, color, s, p);
    ReachesStep(g0, g, k, color, s, p);
    UnleftStep(g0, g, k, color, s, p);
    if Acyclic(Loopless(ColorEdges(g0, color))) {
      LoadStep(g0, g, k, color, s, p);
    }
  }

  /*** The end of a run ***/

  /** All edges but the loops of the colour. */
  ghost function RealEdges(g: GState, color: string): Edges {
    Loopless(ColorEdges(g, color)) + OtherEdges(g, color)
  }

  /** Once no edge of the colour is left, every edge stands for a chain of coloured edges
      closed by another edge, and without a clash for every such chain there is an edge. */
  lemma CollapsedEdges(g0: GState, g: GState, color: string)
    requires Collapsing(g0, g, color) && ColorEdges(g, color) == {}
    ensures forall a, x :: (a, x) in EdgesOf(g) ==> ViaColor(g0, color, a, x)
    ensures Acyclic(Loopless(ColorEdges(g0, color))) && NoClash(ColorEdges(g0, color), OtherEdges(g0, color)) ==>
              forall a, x :: (a, x) in EdgesOf(g) <==> ViaColor(g0, color, a, x)
  {
    var B := OtherEdges(g, color);
    assert B == EdgesOf(g);
    forall a, x
      ensures (a, x) in B <==> ViaColor(g, color, a, x)
    {
      if (a, x) in B {
        ViaEdge({}, B, a, x);
      }
      if ViaColor(g, color, a, x) {
        var u :| Reach({}, a, u) && (u, x) in B;
        ReachCases({}, a, u);
      }
    }
    hide ViaColor;
  }

  lemma CollapsedPlus(g0: GState, g: GState, color: string, a: Id, x: Id)
    requires Collapsing(g0, g, color) && ColorEdges(g, color) == {} && Plus(EdgesOf(g), a, x)
    ensures Plus(RealEdges(g0, color), a, x) && Plus(EdgesOf(g0), a, x)
  {
    var E := EdgesOf(g);
    var L0, R0, B0 := Loopless(ColorEdges(g0, color)), ColorEdges(g0, color), OtherEdges(g0, color);
    assert R0 + B0 == EdgesOf(g0);
    CollapsedEdges(g0, g, color);
    forall b, y | (b, y) in E
      ensures Plus(L0 + B0, b, y)
    {
      assert ViaColor(g0, color, b, y);
      LooplessVia(R0, B0, b, y);
      ViaPlus(L0, B0, b, y);
    }
    PlusTransfers(E, L0 + B0, a, x);
    PlusMono(L0 + B0, EdgesOf(g0), a, x);
  }

  /** Collapsing never makes anything reachable, and never makes a cycle, not even out of a
      loop of the colour. Without a clash it also keeps one, in reach of the same nodes. */
  lemma CollapsedReach(g0: GState, g: GState, color: string, m: Id)
    requires Collapsing(g0, g, color) && ColorEdges(g, color) == {}
    ensures forall x :: Reach(EdgesOf(g), m, x) ==> Reach(EdgesOf(g0), m, x)
    ensures AcyclicBelow(RealEdges(g0, color), m) ==> AcyclicBelow(EdgesOf(g), m)
    ensures Acyclic(Loopless(ColorEdges(g0, color))) && NoClash(ColorEdges(g0, color), OtherEdges(g0, color)) ==>
              (AcyclicBelow(RealEdges(g0, color), m) <==> AcyclicBelow(EdgesOf(g), m))
  {
    var E0, E, L := EdgesOf(g0), EdgesOf(g), RealEdges(g0, color);
    forall x | Reach(E, m, x)
      ensures Reach(E0, m, x) && Reach(L, m, x)
    {
      ReachCases(E, m, x);
      ReachCases(E0, m, x);
      ReachCases(L, m, x);
      if m != x {
        CollapsedPlus(g0, g, color, m, x);
      }
    }
    forall v | Plus(E, v, v)
      ensures Plus(L, v, v)
    {
      CollapsedPlus(g0, g, color, v, v);
    }
    var R0, B0 := ColorEdges(g0, color), OtherEdges(g0, color);
    if Acyclic(Loopless(R0)) && NoClash(R0, B0) {
      CollapsedEdges(g0, g, color);
      forall a, x
        ensures (a, x) in E <==> Via(Loopless(R0), B0, a, x)
      {
        assert ViaColor(g0, color, a, x) <==> Via(R0, B0, a, x);
        LooplessVia(R0, B0, a, x);
      }
      ViaKeepsCycles(Loopless(R0), B0, E, m);
    }
  }

  /** A cycle through a node that no edge of the colour enters stays, clashes or not. */
  lemma UnenteredCycleStays(g0: GState, g: GState, color: string, m: Id, v: Id)
    requires Collapsing(g0, g, color) && !EnteredBy(g0, color, v)
    requires Reach(EdgesOf(g0), m, v) && Plus(EdgesOf(g0), v, v)
    ensures Reach(EdgesOf(g), m, v) && Plus(EdgesOf(g), v, v)
  {
    assert Reaches(g0, g, color);
    ReachCases(EdgesOf(g0), m, v);
    ReachCases(EdgesOf(g), m, v);
  }

  /*** Nodes taken out ***/

  /** h is g without the nodes of D and without their edges. */
  ghost predicate NodesGone(g: GState, h: GState, D: set<Id>) {
    NodesLeft(g, h, D) && AttrsLeft(g, h, D) && ListsLeft(g, h, D)
  }

  ghost predicate NodesLeft(g: GState, h: GState, D: set<Id>) {
    forall a :: (a in h <==> a in g && a !in D) && (a in g && a in h ==> h[a].priority == g[a].priority)
  }

  ghost predicate AttrsLeft(g: GState, h: GState, D: set<Id>) {
    forall a, x :: Attr(h, a, x) == if a in D || x in D then None else Attr(g, a, x)
  }

  ghost predicate ListsLeft(g: GState, h: GState, D: set<Id>) {
    forall a :: a in g && a in h ==> h[a].targets == Unknown(g[a].targets, D)
  }

  lemma {:induction false} UnknownTwice(ts: seq<Id>, D: set<Id>, D2: set<Id>)
    ensures Unknown(Unknown(ts, D), D2) == Unknown(ts, D + D2)
  {
    if ts != [] {
      var k := |ts| - 1;
      UnknownTwice(ts[..k], D, D2);
      if ts[k] !in D {
        UnknownStep(Unknown(ts[..k], D), ts[k], D2);
      }
    }
  }

  lemma {:induction false} UnknownIsRemove(ts: seq<Id>, x: Id)
    requires NoDup(ts)
    ensures Unknown(ts, {x}) == Remove(ts, x)
  {
    if ts != [] {
      var k := |ts| - 1;
      assert ts == ts[..k] + [ts[k]];
      UnknownIsRemove(ts[..k], x);
      RemoveStep(ts[..k], ts[k], x);
    }
  }

  lemma {:induction false} RemoveStep(ts: seq<Id>, t: Id, x: Id)
    requires t !in ts
    ensures Remove(ts + [t], x) == if t == x then ts else Remove(ts, x) + [t]
  {
    if ts != [] {
      assert (ts + [t])[1..] == ts[1..] + [t];
      if ts[0] != x {
        RemoveStep(ts[1..], t, x);
      }
    }
  }

  lemma NodesGoneNone(g: GState)
    ensures NodesGone(g, g, {})
  {
    forall a | a in g
      ensures g[a].targets == Unknown(g[a].targets, {})
    {
      UnknownNone(g[a].targets);
    }
  }

  lemma {:induction false} UnknownNone(ts: seq<Id>)
    ensures Unknown(ts, {}) == ts
  {
    if ts != [] {
      UnknownNone(ts[..|ts| - 1]);
      assert ts == ts[..|ts| - 1] + [ts[|ts| - 1]];
    }
  }

  lemma NodesGoneTwice(g: GState, h: GState, k: GState, D: set<Id>, D2: set<Id>)
    requires NodesGone(g, h, D) && NodesGone(h, k, D2)
    ensures NodesGone(g, k, D + D2)
  {
    assert NodesLeft(g, k, D + D2);
    hide Attr, Unknown, NodesLeft;
    assert AttrsLeft(g, k, D + D2);
    ListsLeftTwice(g, h, k, D, D2);
  }

  lemma ListsLeftTwice(g: GState, h: GState, k: GState, D: set<Id>, D2: set<Id>)
    requires NodesGone(g, h, D) && NodesGone(h, k, D2)
    ensures ListsLeft(g, k, D + D2)
  {
    forall a | a in g && a in k
      ensures k[a].targets == Unknown(g[a].targets, D + D2)
    {
      assert a in h;
      UnknownTwice(g[a].targets, D, D2);
    }
  }

  lemma WithoutNodeAttrs(g: GState, id: Id)
    ensures AttrsLeft(g, WithoutNode(g, id), {id})
  {
    hide Remove;
  }

  lemma WithoutNodeLists(g: GState, id: Id)
    requires Mirror(g)
    ensures ListsLeft(g, WithoutNode(g, id), {id})
  {
    forall a | a in g
      ensures Unknown(g[a].targets, {id}) == Remove(g[a].targets, id)
    {
      assert ListsItsEdges(g[a]);
      UnknownIsRemove(g[a].targets, id);
    }
    hide Remove, Unknown, Mirror;
  }

  lemma WithoutNodeNodes(g: GState, id: Id)
    ensures NodesLeft(g, WithoutNode(g, id), {id})
  {
    hide Remove;
  }

  lemma WithoutNodeGone(g: GState, id: Id)
    requires Mirror(g)
    ensures NodesGone(g, WithoutNode(g, id), {id})
  {
    hide Mirror, AttrsLeft, ListsLeft, NodesLeft, WithoutNode;
    WithoutNodeNodes(g, id);
    WithoutNodeAttrs(g, id);
    WithoutNodeLists(g, id);
  }

  /** The edges that are left are those between nodes that are left. */
  lemma NodesGoneEdges(g: GState, h: GState, D: set<Id>, a: Id, x: Id)
    requires NodesGone(g, h, D)
    ensures (a, x) in EdgesOf(h) <==> (a, x) in EdgesOf(g) && a !in D && x !in D
  {
    assert HasEdge(h, a, x) <==> Attr(h, a, x).Some?;
    assert HasEdge(g, a, x) <==> Attr(g, a, x).Some?;
  }

  /** k is g with the node p replaced by edges from each of its sources to each of its
      targets, which take the attributes p's own edges had. */
  ghost predicate ProxyNodeGone(g: GState, k: GState, p: Id) {
    && NodesLeft(g, k, {p})
    && (forall a, x :: Attr(k, a, x) ==
                       if a == p || x == p then None
                       else if Attr(g, a, p).Some? && Attr(g, p, x).Some? then Attr(g, p, x)
                       else Attr(g, a, x))
  }

  lemma ProxyNodeGoes(g: GState, h: GState, k: GState, p: Id)
    requires Mirror(g) && p in g
    requires CopiedInto(g, h, g[p].sources, p, g[p].targets) && NodesGone(h, k, {p})
    ensures ProxyNodeGone(g, k, p)
  {
    assert NodesLeft(g, k, {p});
    var S, T := g[p].sources, Elems(g[p].targets);
    SourcesAndTargets(g, p);
    hide Attr, Elems, Mirror, NodesLeft;
    forall a, x
      ensures Attr(k, a, x) == if a == p || x == p then None
                               else if Attr(g, a, p).Some? && Attr(g, p, x).Some? then Attr(g, p, x)
                               else Attr(g, a, x)
    {
      assert Attr(k, a, x) == if a in {p} || x in {p} then None else Attr(h, a, x);
      assert Attr(h, a, x) == if a in S && x in T then Attr(g, p, x) else Attr(g, a, x);
    }
  }

  lemma SourcesAndTargets(g: GState, p: Id)
    requires Mirror(g) && p in g
    ensures forall x :: x in Elems(g[p].targets) <==> Attr(g, p, x).Some?
    ensures forall x :: x in g[p].sources <==> Attr(g, x, p).Some?
  {
    forall x
      ensures x in Elems(g[p].targets) <==> Attr(g, p, x).Some?
      ensures x in g[p].sources <==> Attr(g, x, p).Some?
    {
      assert ListsItsEdges(g[p]);
      assert HasEdge(g, x, p) <==> HasSource(g, x, p);
    }
  }

  /** Taking a node out this way keeps exactly what is reachable from where among all
      other nodes, cycles and self-loops included. */
  lemma ProxyNodeKeepsReach(g: GState, k: GState, p: Id, a: Id, b: Id)
    requires ProxyNodeGone(g, k, p) && a != p && b != p
    ensures Plus(EdgesOf(k), a, b) <==> Plus(EdgesOf(g), a, b)
    ensures Reach(EdgesOf(k), a, b) <==> Reach(EdgesOf(g), a, b)
  {
    var E, F := EdgesOf(g), EdgesOf(k);
    forall x, y
      ensures (x, y) in F <==> x != p && y != p && ((x, y) in E || ((x, p) in E && (p, y) in E))
    {
      assert HasEdge(k, x, y) <==> Attr(k, x, y).Some?;
    }
    hide ProxyNodeGone, Attr;
    if Plus(F, a, b) {
      forall x, y | (x, y) in F
        ensures Plus(E, x, y)
      {
        ReachRefl(E, y);
        if (x, y) !in E {
          ReachStep(E, p, y, y);
        }
      }
      PlusTransfers(F, E, a, b);
    }
    if Plus(E, a, b) {
      var c :| (a, c) in E && Reach(E, c, b);
      var w :| WalkFromTo(E, w, c, b);
      var v := [a] + w;
      forall i | 0 <= i < |v| - 1
        ensures (v[i], v[i + 1]) in E
      {
        assert i > 0 ==> v[i] == w[i - 1];
        assert v[i + 1] == w[i];
      }
      ProxyNodeWalk(E, F, p, v, a, b);
    }
    ReachCases(E, a, b);
    ReachCases(F, a, b);
  }

  lemma {:induction false} ProxyNodeWalk(E: Edges, F: Edges, p: Id, w: seq<Id>, a: Id, b: Id)
    requires forall x, y :: (x, y) in F <==> x != p && y != p && ((x, y) in E || ((x, p) in E && (p, y) in E))
    requires WalkFromTo(E, w, a, b) && |w| > 1 && a != p && b != p
    ensures Plus(F, a, b)
    decreases |w|
  {
    WalkTail(E, w, a, b);
    var c := w[1];
    ReachRefl(F, b);
    if c != p {
      if |w| > 2 {
        ProxyNodeWalk(E, F, p, w[1..], c, b);
        ReachCases(F, c, b);
      }
    } else {
      WalkTail(E, w[1..], c, b);
      var d := w[2];
      assert w[1..][1] == d && w[1..][1..] == w[2..];
      if d == p {
        var v := [a] + w[2..];
        forall i | 0 <= i < |v| - 1
          ensures (v[i], v[i + 1]) in E
        {
          assert i > 0 ==> v[i] == w[2..][i - 1] && v[i + 1] == w[2..][i];
        }
        ProxyNodeWalk(E, F, p, v, a, b);
      } else if |w| > 3 {
        ProxyNodeWalk(E, F, p, w[2..], d, b);
        ReachCases(F, d, b);
      }
    }
  }

  /*** Facts the graph's methods use ***/

  lemma TargetsAreEdges(g: GState, p: Id)
    requires Mirror(g) && p in g
    ensures NoDup(g[p].targets)
    ensures forall t :: t in g[p].targets ==> Attr(g, p, t).Some?
  {
    assert ListsItsEdges(g[p]);
  }

  lemma TargetsCoverColor(g: GState, color: string, s: Id)
    requires Mirror(g) && s in g
    ensures forall t :: HasColor(g, color, s, t) ==> t in g[s].targets
  {
    assert ListsItsEdges(g[s]);
  }

  lemma ColoredEnds(g: GState, color: string, s: Id, t: Id)
    requires Mirror(g) && HasColor(g, color, s, t)
    ensures s in g && t in g
  {
    assert HasEdge(g, s, t) && HasSource(g, s, t);
  }

  lemma NoneColored(g: GState, color: string)
    requires forall s, t :: s in g ==> !HasColor(g, color, s, t)
    ensures ColorEdges(g, color) == {}
  {
    SameEdges(ColorEdges(g, color), {});
  }

  lemma NoNodeToRemove(g: GState, id: Id)
    requires Mirror(g) && id !in g
    ensures WithoutNode(g, id) == g
  {
    forall a | a in g
      ensures WithoutNode(g, id)[a] == g[a]
    {
      assert !HasEdge(g, a, id) by {
        assert !HasSource(g, a, id);
      }
      assert !HasSource(g, id, a) by {
        assert !HasEdge(g, id, a);
      }
      assert ListsItsEdges(g[a]);
      assert g[a].sources - {id} == g[a].sources;
      assert g[a].edgeAttributes - {id} == g[a].edgeAttributes;
    }
  }

  lemma EndsAreNodes(g: GState, id: Id)
    requires Mirror(g) && id in g
    ensures g[id].edgeAttributes.Keys <= g.Keys && g[id].sources <= g.Keys
  {
    forall x
      ensures x in g[id].edgeAttributes ==> x in g
      ensures x in g[id].sources ==> x in g
    {
      assert HasEdge(g, id, x) <==> HasSource(g, id, x);
      assert HasEdge(g, x, id) <==> HasSource(g, x, id);
    }
  }

  function NoSource(n: NodeRec, id: Id): NodeRec {
    n.(sources := n.sources - {id})
  }

  function NoTarget(n: NodeRec, id: Id): NodeRec {
    n.(edgeAttributes := n.edgeAttributes - {id}, targets := Remove(n.targets, id))
  }

  function WithoutSource(g: GState, S: set<Id>, id: Id): GState {
    map k | k in g :: if k in S then NoSource(g[k], id) else g[k]
  }

  function WithoutTarget(g: GState, S: set<Id>, id: Id): GState {
    map k | k in g :: if k in S then NoTarget(g[k], id) else g[k]
  }

  lemma ParentsAfter(g: GState, id: Id)
    requires Mirror(g) && id in g
    ensures id in WithoutSource(g, g[id].edgeAttributes.Keys, id)
    ensures WithoutSource(g, g[id].edgeAttributes.Keys, id).Keys == g.Keys
    ensures WithoutSource(g, g[id].edgeAttributes.Keys, id)[id].sources <= g.Keys
  {
    EndsAreNodes(g, id);
  }

  lemma NodeTakenOut(g: GState, id: Id)
    requires Mirror(g) && id in g
    ensures var h := WithoutSource(g, g[id].edgeAttributes.Keys, id);
            && id in h
            && WithoutTarget(h, h[id].sources, id) - {id} == WithoutNode(g, id)
  {
    var h := WithoutSource(g, g[id].edgeAttributes.Keys, id);
    var k, l := WithoutTarget(h, h[id].sources, id), WithoutNode(g, id);
    forall a | a in l
      ensures k[a] == l[a]
    {
      NodeTakenOutAt(g, id, a);
    }
  }

  lemma NodeTakenOutAt(g: GState, id: Id, a: Id)
    requires Mirror(g) && id in g && a in g && a != id
    ensures var h := WithoutSource(g, g[id].edgeAttributes.Keys, id);
            WithoutTarget(h, h[id].sources, id)[a] == WithoutNode(g, id)[a]
  {
    assert ListsItsEdges(g[a]);
    assert HasEdge(g, id, a) <==> HasSource(g, id, a);
    assert HasEdge(g, a, id) <==> HasSource(g, a, id);
    hide Mirror, NoDup;
    if a !in g[id].edgeAttributes {
      assert g[a].sources - {id} == g[a].sources;
    }
    if a !in g[id].sources {
      assert id !in g[a].targets;
      assert g[a].edgeAttributes - {id} == g[a].edgeAttributes;
    }
  }

  lemma CopiedFromNone(g: GState, sources: seq<Id>, p: Id, ts: seq<Id>)
    ensures CopiedInto(g, g, Elems(sources[..0]), p, ts)
  {
    CopiedNothing(g, {}, p, ts);
    assert Elems(sources[..0]) == {};
  }

  lemma AllSources(g: GState, sources: seq<Id>, p: Id)
    requires p in g && forall s :: s in sources <==> s in g[p].sources
    ensures Elems(sources[..|sources|]) == g[p].sources
  {
    assert sources[..|sources|] == sources;
  }

  lemma AnotherSource(g: GState, h: GState, sources: seq<Id>, i: nat, p: Id, ts: seq<Id>)
    requires Mirror(g) && i < |sources| && NoDup(sources) && CopiedInto(g, h, Elems(sources[..i]), p, ts)
    requires p in g && (forall s :: s in sources ==> s in g[p].sources)
    requires forall t :: t in ts ==> Attr(g, p, t).Some?
    ensures sources[i] in h && p in h && sources[i] !in Elems(sources[..i])
    ensures Elems(sources[..i + 1]) == Elems(sources[..i]) + {sources[i]}
    ensures forall t :: t in ts ==> Attr(h, p, t).Some?
  {
    var s := sources[i];
    assert sources[..i + 1] == sources[..i] + [s];
    assert s !in sources[..i];
    assert HasEdge(g, s, p) by {
      assert HasSource(g, s, p);
    }
    forall t | t in ts
      ensures Attr(h, p, t).Some?
    {
      assert Attr(h, p, t) == Attr(g, p, t);
    }
  }

  /*** Cutting off everything below a node ***/

  ghost function Below(g: GState, r: Id): set<Id> {
    set x | x in g && Plus(EdgesOf(g), r, x)
  }

  ghost predicate ReachedFrom(g: GState, ts: seq<Id>, x: Id) {
    exists t :: t in ts && Reach(EdgesOf(g), t, x)
  }

  ghost function BelowAny(g: GState, ts: seq<Id>): set<Id> {
    set x | x in g && ReachedFrom(g, ts, x)
  }

  lemma CutNothing(g: GState, ts: seq<Id>)
    ensures NodesGone(g, g, BelowAny(g, ts[..0]))
  {
    NodesGoneNone(g);
    assert BelowAny(g, ts[..0]) == {};
  }

  lemma BelowAnyClosed(g: GState, ts: seq<Id>, x: Id, y: Id)
    requires Mirror(g) && x in BelowAny(g, ts) && Reach(EdgesOf(g), x, y)
    ensures y in BelowAny(g, ts)
  {
    var t :| t in ts && Reach(EdgesOf(g), t, x);
    ReachTrans(EdgesOf(g), t, x, y);
    ReachedIsNode(g, x, y);
  }

  lemma ReachedIsNode(g: GState, x: Id, y: Id)
    requires Mirror(g) && x in g && Reach(EdgesOf(g), x, y)
    ensures y in g
  {
    var S := iset z | z in g;
    forall a, b | (a, b) in EdgesOf(g) && a in S
      ensures b in S
    {
      assert HasEdge(g, a, b) && HasSource(g, a, b);
    }
    ReachClosed(EdgesOf(g), S, x, y);
  }

  /** With a closed set of nodes taken out, the others still reach each other as before. */
  lemma CutReach(g: GState, h: GState, ts: seq<Id>, t: Id, x: Id)
    requires Mirror(g) && NodesGone(g, h, BelowAny(g, ts)) && t in h
    ensures Plus(EdgesOf(h), t, x) <==> Plus(EdgesOf(g), t, x) && x !in BelowAny(g, ts)
  {
    var D, E, F := BelowAny(g, ts), EdgesOf(g), EdgesOf(h);
    forall a, b
      ensures (a, b) in F <==> (a, b) in E && a !in D && b !in D
    {
      NodesGoneEdges(g, h, D, a, b);
    }
    assert F <= E by {
      forall e | e in F
        ensures e in E
      {
        assert e == (e.0, e.1);
      }
    }
    if Plus(F, t, x) {
      PlusMono(F, E, t, x);
      PlusLast(F, t, x);
    }
    if Plus(E, t, x) && x !in D {
      var S := iset y | y in D || Plus(F, t, y);
      forall y, z | (y, z) in E && y in S
        ensures z in S
      {
        ReachEdge(E, y, z);
        if y in D {
          BelowAnyClosed(g, ts, y, z);
        } else if z !in D {
          ReachEdge(F, y, z);
          PlusReach(F, t, y, z);
        }
      }
      var c :| (t, c) in E && Reach(E, c, x);
      ReachRefl(F, c);
      ReachClosed(E, S, c, x);
    }
  }

  lemma CutReady(g: GState, h: GState, root: Id, ts: seq<Id>, i: nat)
    requires Mirror(g) && AcyclicBelow(EdgesOf(g), root) && i < |ts|
    requires root in g ==> ts == g[root].targets
    requires root !in g ==> ts == []
    requires NodesGone(g, h, BelowAny(g, ts[..i]))
    ensures AcyclicBelow(EdgesOf(h), ts[i])
    ensures Rank(EdgesOf(h), h.Keys, ts[i]) < Rank(EdgesOf(g), g.Keys, root)
  {
    var t, E, F := ts[i], EdgesOf(g), EdgesOf(h);
    assert ListsItsEdges(g[root]);
    assert (root, t) in E;
    assert F <= E by {
      forall e | e in F
        ensures e in E
      {
        NodesGoneEdges(g, h, BelowAny(g, ts[..i]), e.0, e.1);
        assert e == (e.0, e.1);
      }
    }
    ReachRefl(E, t);
    ReachRefl(E, root);
    forall v | Reach(F, t, v)
      ensures !Plus(F, v, v)
    {
      ReachMono(F, E, t, v);
      ReachStep(E, root, t, v);
      if Plus(F, v, v) {
        PlusMono(F, E, v, v);
      }
    }
    RankDrops(E, g.Keys, root, t);
    forall v | v in ReachSet(F, h.Keys, t)
      ensures v in ReachSet(E, g.Keys, t)
    {
      ReachMono(F, E, t, v);
    }
    SubsetSize(ReachSet(F, h.Keys, t), ReachSet(E, g.Keys, t));
  }

  lemma CutDone(g: GState, h: GState, k: GState, ts: seq<Id>, i: nat)
    requires Mirror(g) && Mirror(k) && i < |ts|
    requires NodesGone(g, h, BelowAny(g, ts[..i])) && NodesGone(h, k, Below(h, ts[i]))
    ensures NodesGone(g, WithoutNode(k, ts[i]), BelowAny(g, ts[..i + 1]))
  {
    var t, D := ts[i], BelowAny(g, ts[..i]);
    WithoutNodeGone(k, t);
    NodesGoneTwice(g, h, k, D, Below(h, t));
    NodesGoneTwice(g, k, WithoutNode(k, t), D + Below(h, t), {t});
    var D1, D2 := D + Below(h, t) + {t}, BelowAny(g, ts[..i + 1]);
    forall x | x in g
      ensures x in D1 <==> x in D2
    {
      CutMember(g, h, ts, i, x);
    }
    SameGone(g, WithoutNode(k, t), D1, D2);
  }

  lemma CutMember(g: GState, h: GState, ts: seq<Id>, i: nat, x: Id)
    requires Mirror(g) && i < |ts| && x in g
    requires NodesGone(g, h, BelowAny(g, ts[..i]))
    ensures x in BelowAny(g, ts[..i]) + Below(h, ts[i]) + {ts[i]} <==> x in BelowAny(g, ts[..i + 1])
  {
    var t, D := ts[i], BelowAny(g, ts[..i]);
    assert ts[..i + 1] == ts[..i] + [t];
    assert ReachedFrom(g, ts[..i + 1], x) <==> ReachedFrom(g, ts[..i], x) || Reach(EdgesOf(g), t, x);
    ReachCases(EdgesOf(g), t, x);
    if t in h {
      CutReach(g, h, ts[..i], t, x);
    } else if t in g {
      if Reach(EdgesOf(g), t, x) {
        BelowAnyClosed(g, ts[..i], t, x);
      }
    }
  }

  /** Only which nodes of g are taken out matters. */
  lemma SameGone(g: GState, h: GState, D: set<Id>, D2: set<Id>)
    requires Mirror(g) && NodesGone(g, h, D)
    requires forall x :: x in g ==> (x in D <==> x in D2)
    ensures NodesGone(g, h, D2)
  {
    forall a, x
      ensures Attr(g, a, x).Some? ==> a in g && x in g
    {
      assert HasEdge(g, a, x) <==> HasSource(g, a, x);
    }
    assert NodesLeft(g, h, D2);
    assert AttrsLeft(g, h, D2) by {
      hide Mirror, HasEdge;
    }
    forall a | a in g && a in h
      ensures h[a].targets == Unknown(g[a].targets, D2)
    {
      assert ListsItsEdges(g[a]);
      forall t | t in g[a].targets
        ensures t in g
      {
        assert HasEdge(g, a, t);
      }
      SameUnknown(g[a].targets, D, D2);
    }
    hide Mirror, Unknown, AttrsLeft, NodesLeft;
  }

  lemma {:induction false} SameUnknown(ts: seq<Id>, D: set<Id>, D2: set<Id>)
    requires forall t :: t in ts ==> (t in D <==> t in D2)
    ensures Unknown(ts, D) == Unknown(ts, D2)
  {
    if ts != [] {
      SameUnknown(ts[..|ts| - 1], D, D2);
    }
  }

  lemma CutAll(g: GState, root: Id, ts: seq<Id>)
    requires Mirror(g)
    requires root in g ==> ts == g[root].targets
    requires root !in g ==> ts == []
    ensures BelowAny(g, ts[..|ts|]) == Below(g, root)
  {
    assert ts[..|ts|] == ts;
    forall x | x in g
      ensures ReachedFrom(g, ts, x) <==> Plus(EdgesOf(g), root, x)
    {
      if root in g {
        assert ListsItsEdges(g[root]);
        assert forall t :: t in ts <==> (root, t) in EdgesOf(g);
      }
    }
  }
}
