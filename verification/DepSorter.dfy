/** The resolver that gives a module the link order of its static libraries. */
module DepSorter {
  import opened Wrappers
  import opened Digraph
  import opened GraphState
  import opened ProxyCollapse
  import opened ProxyState
  import opened Graphs
  import opened Subgraph
  import opened TopoSort
  import opened SortOrder
  import opened OrderingEdges

  const MIN_INT := -0x8000_0000_0000_0000

  datatype Outcome = Resolved(libs: seq<Id>) | MissingLib(lib: Id) | CycleFound

  /*** A subgraph and its graph ***/

  lemma SubgraphEdges(g: GState, m: Id, h: GState)
    requires Mirror(g) && IsSubgraph(g, m, h)
    ensures forall a, x :: (a, x) in EdgesOf(h) <==> (a, x) in EdgesOf(g) && Reach(EdgesOf(g), m, a)
    ensures forall c, a, x :: (a, x) in ColorEdges(h, c) <==> (a, x) in ColorEdges(g, c) && Reach(EdgesOf(g), m, a)
  {
    ReachRefl(EdgesOf(g), m);
    forall a, x
      ensures Attr(h, a, x).Some? <==> Attr(g, a, x).Some? && Reach(EdgesOf(g), m, a)
      ensures Attr(h, a, x).Some? ==> Attr(h, a, x) == Attr(g, a, x)
    {
      assert Attr(h, a, x) == if a in Span(g, m) then Attr(g, a, x) else None;
    }
    forall a, x
      ensures (a, x) in EdgesOf(h) <==> Attr(h, a, x).Some?
      ensures (a, x) in EdgesOf(g) <==> Attr(g, a, x).Some?
    {
    }
    forall c, a, x
      ensures (a, x) in ColorEdges(h, c) <==> (a, x) in ColorEdges(g, c) && Reach(EdgesOf(g), m, a)
    {
      ColorsByAttr(g, c, a, x);
      ColorsByAttr(h, c, a, x);
    }
  }

  /** F has those edges of E that start in reach of m within G. */
  lemma PartReach(E: Edges, F: Edges, G: Edges, m: Id, v: Id, x: Id)
    requires forall a, y :: (a, y) in F <==> (a, y) in E && Reach(G, m, a)
    requires E <= G && Reach(G, m, v)
    ensures Reach(F, v, x) <==> Reach(E, v, x)
    ensures Plus(F, v, x) <==> Plus(E, v, x)
  {
    assert F <= E by {
      forall e | e in F
        ensures e in E
      {
        assert e == (e.0, e.1);
      }
    }
    if Plus(F, v, x) {
      PlusMono(F, E, v, x);
    }
    if Plus(E, v, x) {
      var S := iset y | Plus(F, v, y) && Reach(G, m, y);
      forall y, z | (y, z) in E && Reach(G, m, y) && (y == v || y in S)
        ensures z in S
      {
        ReachEdge(F, y, z);
        ReachRefl(F, z);
        if y != v {
          PlusReach(F, v, y, z);
        }
        ReachEdge(G, y, z);
        ReachTrans(G, m, y, z);
      }
      var c :| (v, c) in E && Reach(E, c, x);
      ReachClosed(E, S, c, x);
    }
    ReachCases(E, v, x);
    ReachCases(F, v, x);
  }

  lemma SubgraphReach(g: GState, m: Id, h: GState, v: Id, x: Id)
    requires Mirror(g) && IsSubgraph(g, m, h) && Reach(EdgesOf(g), m, v)
    ensures Reach(EdgesOf(h), v, x) <==> Reach(EdgesOf(g), v, x)
    ensures Plus(EdgesOf(h), v, x) <==> Plus(EdgesOf(g), v, x)
  {
    SubgraphEdges(g, m, h);
    hide IsSubgraph, Mirror;
    PartReach(EdgesOf(g), EdgesOf(h), EdgesOf(g), m, v, x);
  }

  /** Acyclic below its root, or acyclic at all: for a subgraph it is the same. */
  lemma SubgraphCycles(g: GState, m: Id, h: GState)
    requires Mirror(g) && IsSubgraph(g, m, h)
    ensures Acyclic(EdgesOf(h)) <==> AcyclicBelow(EdgesOf(g), m)
    ensures AcyclicBelow(EdgesOf(h), m) <==> AcyclicBelow(EdgesOf(g), m)
  {
    var E, F := EdgesOf(g), EdgesOf(h);
    ReachRefl(E, m);
    SubgraphEdges(g, m, h);
    forall v
      ensures Plus(F, v, v) <==> Reach(E, m, v) && Plus(E, v, v)
      ensures Reach(F, m, v) <==> Reach(E, m, v)
    {
      if Reach(E, m, v) {
        SubgraphReach(g, m, h, v, v);
      }
      SubgraphReach(g, m, h, m, v);
    }
  }

  /** Red loops lead nowhere new. */
  lemma RealReach(g: GState, a: Id, x: Id)
    ensures Reach(RealEdges(g, "red"), a, x) <==> Reach(EdgesOf(g), a, x)
  {
    var E, L := EdgesOf(g), RealEdges(g, "red");
    assert Loopless(E) <= L <= E by {
      assert ColorEdges(g, "red") + OtherEdges(g, "red") == E;
    }
    LooplessReach(E, a, x);
    if Reach(Loopless(E), a, x) {
      ReachMono(Loopless(E), L, a, x);
    }
    if Reach(L, a, x) {
      ReachMono(L, E, a, x);
    }
  }

  /** The same for cycles of more than red loops. */
  lemma SubgraphRealCycles(g: GState, m: Id, h: GState)
    requires Mirror(g) && IsSubgraph(g, m, h)
    ensures AcyclicBelow(RealEdges(h, "red"), m) <==> AcyclicBelow(RealEdges(g, "red"), m)
  {
    var E, F, G := RealEdges(g, "red"), RealEdges(h, "red"), EdgesOf(g);
    SubgraphEdges(g, m, h);
    RealParts(g, m, h);
    assert E <= G by {
      assert ColorEdges(g, "red") + OtherEdges(g, "red") == G;
    }
    ReachRefl(G, m);
    hide IsSubgraph, Mirror, RealEdges;
    forall v
      ensures Reach(F, m, v) <==> Reach(E, m, v)
      ensures Reach(E, m, v) ==> (Plus(F, v, v) <==> Plus(E, v, v))
    {
      PartReach(E, F, G, m, m, v);
      if Reach(E, m, v) {
        ReachMono(E, G, m, v);
        PartReach(E, F, G, m, v, v);
      }
    }
  }

  lemma RealParts(g: GState, m: Id, h: GState)
    requires forall c, a, x :: (a, x) in ColorEdges(h, c) <==> (a, x) in ColorEdges(g, c) && Reach(EdgesOf(g), m, a)
    requires forall a, x :: (a, x) in EdgesOf(h) <==> (a, x) in EdgesOf(g) && Reach(EdgesOf(g), m, a)
    ensures forall a, x :: (a, x) in RealEdges(h, "red") <==> (a, x) in RealEdges(g, "red") && Reach(EdgesOf(g), m, a)
  {
    hide EdgesOf, ColorEdges, RealEdges;
    forall a, x
      ensures (a, x) in RealEdges(h, "red") <==> (a, x) in RealEdges(g, "red") && Reach(EdgesOf(g), m, a)
    {
      RealEdgeIs(g, a, x);
      RealEdgeIs(h, a, x);
    }
  }

  lemma RealEdgeIs(g: GState, a: Id, x: Id)
    ensures (a, x) in RealEdges(g, "red") <==> (a, x) in EdgesOf(g) && (a == x ==> (a, x) !in ColorEdges(g, "red"))
  {
  }

  /*** Priorities ***/

  /** Many users and few libraries pulled in give a high priority; the module itself gets
      the lowest. */
  ghost function PriorityFor(h: GState, main: Id, a: Id): int
    requires a in h
  {
    if a == main then MIN_INT else 10 * |h[a].sources| - |Span(h, a)|
  }

  ghost predicate Prioritized(h: GState, k: GState, main: Id) {
    && k.Keys == h.Keys
    && forall a :: a in h ==> k[a] == h[a].(priority := PriorityFor(h, main, a))
  }

  /** h with other priorities, or none. */
  ghost predicate SameLinks(h: GState, k: GState) {
    && k.Keys == h.Keys
    && forall a :: a in h ==> k[a] == h[a].(priority := k[a].priority)
  }

  lemma SameLinksEdges(h: GState, k: GState)
    requires SameLinks(h, k)
    ensures EdgesOf(k) == EdgesOf(h)
    ensures forall a :: Span(k, a) == Span(h, a)
    ensures forall a, x :: Attr(k, a, x) == Attr(h, a, x)
    ensures forall c :: ColorEdges(k, c) == ColorEdges(h, c) && OtherEdges(k, c) == OtherEdges(h, c)
  {
    forall a, x
      ensures HasEdge(k, a, x) <==> HasEdge(h, a, x)
      ensures Attr(k, a, x) == Attr(h, a, x)
    {
    }
    SameEdges(EdgesOf(k), EdgesOf(h));
    forall c
      ensures ColorEdges(k, c) == ColorEdges(h, c) && OtherEdges(k, c) == OtherEdges(h, c)
    {
      forall a, x
        ensures (a, x) in ColorEdges(k, c) <==> (a, x) in ColorEdges(h, c)
        ensures (a, x) in OtherEdges(k, c) <==> (a, x) in OtherEdges(h, c)
      {
        ColorsByAttr(k, c, a, x);
        ColorsByAttr(h, c, a, x);
      }
      SameEdges(ColorEdges(k, c), ColorEdges(h, c));
      SameEdges(OtherEdges(k, c), OtherEdges(h, c));
    }
  }

  method SetPriorities(sub: Graph, main: Id)
    requires sub.Valid() && main in sub.State()
    modifies sub.nodeMap.Values
    ensures sub.Valid() && sub.nodeMap == old(sub.nodeMap)
    ensures Prioritized(old(sub.State()), sub.State(), main)
    ensures |old(sub.State())| <= -MIN_INT ==> IsLeast(sub.State(), main)
  {
    hide Graph.State, Graph.Valid, Mirror, Span, NoDup, SameLinks, PricedTo, Prioritized, WithPriority;
    ghost var h := sub.State();
    StartPrices(h);
    var nodes := sub.GetNodes();
    for i := 0 to |nodes|
      invariant sub.Valid() && sub.nodeMap == old(sub.nodeMap)
      invariant SameLinks(h, sub.State()) && PricedTo(h, sub.State(), nodes, i)
    {
      var nodeID := nodes[i];
      ghost var k := sub.State();
      SameNodeSets(h, k);
      SameLinksEdges(h, k);
      var cost := GetSubgraphNodeCount(sub, nodeID);
      var sources := sub.GetSources(nodeID);
      var priority := |sources|;
      PriceNext(h, k, nodes, i);
      var _ := sub.SetNodePriority(nodeID, 10 * priority - cost);
    }
    PriceMain(h, sub.State(), nodes, main);
    var _ := sub.SetNodePriority(main, MIN_INT);
    if |h| <= -MIN_INT {
      MainIsLeast(h, sub.State(), main);
    }
  }

  ghost predicate IsLeast(g: GState, main: Id) {
    forall a :: a in g && main in g ==> g[main].priority <= g[a].priority
  }

  /** No node pulls in more nodes than there are. */
  lemma MainIsLeast(h: GState, k: GState, main: Id)
    requires Prioritized(h, k, main) && main in h && |h| <= -MIN_INT
    ensures IsLeast(k, main)
  {
    forall a | a in h
      ensures k[main].priority <= k[a].priority
    {
      SubsetSize(Span(h, a), h.Keys);
      assert |h.Keys| == |h|;
    }
  }

  lemma StartPrices(h: GState)
    ensures SameLinks(h, h) && forall nodes :: PricedTo(h, h, nodes, 0)
  {
  }

  lemma SameNodeSets(h: GState, k: GState)
    requires SameLinks(h, k)
    ensures k.Keys == h.Keys
  {
  }

  function Price(h: GState, a: Id, span: set<Id>): int
    requires a in h
  {
    10 * |h[a].sources| - |span|
  }

  ghost predicate PricedTo(h: GState, k: GState, nodes: seq<Id>, n: nat)
    requires n <= |nodes|
  {
    forall j :: 0 <= j < n && nodes[j] in h && nodes[j] in k ==>
      k[nodes[j]].priority == Price(h, nodes[j], Span(h, nodes[j]))
  }

  lemma PriceNext(h: GState, k: GState, nodes: seq<Id>, i: nat)
    requires SameLinks(h, k) && i < |nodes| && nodes[i] in h && PricedTo(h, k, nodes, i)
    requires NoDup(nodes)
    ensures var k2 := WithPriority(k, nodes[i], Price(h, nodes[i], Span(h, nodes[i])));
            SameLinks(h, k2) && PricedTo(h, k2, nodes, i + 1)
    ensures k[nodes[i]].sources == h[nodes[i]].sources
  {
    hide Span;
  }

  lemma PriceMain(h: GState, k: GState, nodes: seq<Id>, main: Id)
    requires SameLinks(h, k) && PricedTo(h, k, nodes, |nodes|) && main in h
    requires forall a :: a in h ==> a in nodes
    ensures Prioritized(h, WithPriority(k, main, MIN_INT), main)
  {
    hide Span;
    var k2 := WithPriority(k, main, MIN_INT);
    forall a | a in h
      ensures k2[a] == h[a].(priority := PriorityFor(h, main, a))
    {
      var j :| 0 <= j < |nodes| && nodes[j] == a;
    }
  }

  /*** What a run of the resolver goes through ***/

  /** The graph states of one run: with the declared edges, with the temporary ones as
      well, the part below the module before and after whole-static edges are collapsed,
      and what is below the module then, with the order in which its nodes came up. */
  datatype Run = Run(declared: GState, temp: map<Id, seq<Id>>, ordered: GState, sub: GState, prio: GState,
                     collapsed: GState, final: GState, order: seq<Id>)

  ghost predicate IsRun(r: Run, main: Id, statics: seq<Id>) {
    && Mirror(r.declared) && Mirror(r.ordered) && Mirror(r.prio) && Mirror(r.collapsed)
    && PinkAdded(r.declared, r.ordered, r.temp)
    && Harmless(EdgesOf(r.declared), EdgesOf(r.ordered), main)
    && OnlyPairs(EdgesOf(r.declared), EdgesOf(r.ordered), statics)
    && (|statics| > 0 ==> OrderedTo(EdgesOf(r.declared), EdgesOf(r.ordered), statics, |statics|, 0))
    && IsSubgraph(r.ordered, main, r.sub)
    && Prioritized(r.sub, r.prio, main)
    && Collapsing(r.prio, r.collapsed, "red") && ColorEdges(r.collapsed, "red") == {}
    && IsSubgraph(r.collapsed, main, r.final) && AllNodesOnce(r.final, r.order)
  }

  /** Whole-static edges alone make no cycle of more than one node below the module. */
  ghost predicate NoRedCycleBelow(g: GState, main: Id) {
    forall v :: Reach(EdgesOf(g), main, v) ==> !Plus(Loopless(ColorEdges(g, "red")), v, v)
  }

  /** The graph with the module's own edges: blue for static libraries, red for whole ones. */
  ghost function Declared(g: GState, main: Id, statics: seq<Id>, wholes: seq<Id>): GState
    requires AllPresent(g, main, statics) && AllPresent(g, main, wholes)
  {
    Declare(Declare(g, main, statics, "blue"), main, wholes, "red")
  }

  lemma DeclaredKeeps(g: GState, main: Id, statics: seq<Id>, wholes: seq<Id>)
    requires Mirror(g) && AllPresent(g, main, statics) && AllPresent(g, main, wholes)
    ensures Mirror(Declared(g, main, statics, wholes))
    ensures forall l :: l in statics + wholes ==> (main, l) in EdgesOf(Declared(g, main, statics, wholes))
    ensures forall l :: l in statics + wholes ==> l in Declared(g, main, statics, wholes)
    ensures forall l :: l in statics ==> Reach(EdgesOf(Declared(g, main, statics, wholes)), main, l)
  {
    DeclareKeeps(g, main, statics, "blue");
    DeclareKeeps(Declare(g, main, statics, "blue"), main, wholes, "red");
    forall l | l in statics
      ensures Reach(EdgesOf(Declared(g, main, statics, wholes)), main, l)
    {
      ReachEdge(EdgesOf(Declared(g, main, statics, wholes)), main, l);
    }
  }

  lemma PrioritizedLinks(h: GState, k: GState, main: Id)
    requires Prioritized(h, k, main)
    ensures SameLinks(h, k)
  {
  }

  lemma RedIsAcyclic(declared: GState, ordered: GState, temp: map<Id, seq<Id>>, main: Id, sub: GState)
    requires Mirror(ordered) && NoRedCycleBelow(declared, main)
    requires PinkAdded(declared, ordered, temp) && Harmless(EdgesOf(declared), EdgesOf(ordered), main)
    requires IsSubgraph(ordered, main, sub)
    ensures Acyclic(Loopless(ColorEdges(sub, "red")))
  {
    hide Mirror, IsSubgraph, PinkAdded, EdgesOf, ColorEdges;
    SubgraphEdges(ordered, main, sub);
    PinkIsNotRed(declared, ordered, temp);
    RedShrinks(declared, ordered, main, sub);
    var R, D := Loopless(ColorEdges(sub, "red")), Loopless(ColorEdges(declared, "red"));
    forall v
      ensures !Plus(R, v, v)
    {
      if Plus(R, v, v) {
        var c :| (v, c) in R && Reach(R, c, v);
        assert Reach(EdgesOf(ordered), main, v);
        PlusMono(R, D, v, v);
      }
    }
  }

  lemma RedShrinks(declared: GState, ordered: GState, main: Id, sub: GState)
    requires forall a, x :: (a, x) in ColorEdges(ordered, "red") ==> (a, x) in ColorEdges(declared, "red")
    requires forall c, a, x :: (a, x) in ColorEdges(sub, c) <==>
               (a, x) in ColorEdges(ordered, c) && Reach(EdgesOf(ordered), main, a)
    ensures ColorEdges(sub, "red") <= ColorEdges(declared, "red")
    ensures Loopless(ColorEdges(sub, "red")) <= Loopless(ColorEdges(declared, "red"))
  {
    forall e | e in ColorEdges(sub, "red")
      ensures e in ColorEdges(declared, "red")
    {
      assert e == (e.0, e.1);
    }
  }

  lemma PinkIsNotRed(g: GState, k: GState, temp: map<Id, seq<Id>>)
    requires PinkAdded(g, k, temp)
    ensures forall a, x :: (a, x) in ColorEdges(k, "red") ==> (a, x) in ColorEdges(g, "red")
  {
    hide ColorEdges, Attr, ListOf, Quoted;
    forall a, x | (a, x) in ColorEdges(k, "red")
      ensures (a, x) in ColorEdges(g, "red")
    {
      ColorsByAttr(k, "red", a, x);
      ColorsByAttr(g, "red", a, x);
      assert Attr(k, a, x) == if x in ListOf(temp, a) then Some(PINK) else Attr(g, a, x);
      PinkAndRed();
    }
  }

  lemma PinkAndRed()
    ensures Quoted("pink") != Quoted("red")
  {
    assert Quoted("pink")[1] != Quoted("red")[1];
  }

  /*** The main results ***/

  lemma OrderedRealEdges(g: GState, k: GState, temp: map<Id, seq<Id>>)
    requires PinkAdded(g, k, temp)
    ensures RealEdges(k, "red") * EdgesOf(g) == RealEdges(g, "red") <= RealEdges(k, "red") <= EdgesOf(k)
  {
    forall a, x
      ensures (a, x) in RealEdges(g, "red") <==> (a, x) in RealEdges(k, "red") && (a, x) in EdgesOf(g)
    {
      if (a, x) in EdgesOf(g) {
        OldEdgeKeepsColor(g, k, temp, a, x);
      }
      RealEdgeIs(g, a, x);
      RealEdgeIs(k, a, x);
    }
    hide PinkAdded, RealEdges, EdgesOf;
    SameEdges(RealEdges(k, "red") * EdgesOf(g), RealEdges(g, "red"));
    RealAreEdges(k);
  }

  lemma RealAreEdges(g: GState)
    ensures RealEdges(g, "red") <= EdgesOf(g)
  {
    assert ColorEdges(g, "red") + OtherEdges(g, "red") == EdgesOf(g);
  }

  lemma OldEdgeKeepsColor(g: GState, k: GState, temp: map<Id, seq<Id>>, a: Id, x: Id)
    requires PinkAdded(g, k, temp) && (a, x) in EdgesOf(g)
    ensures (a, x) in EdgesOf(k)
    ensures (a, x) in ColorEdges(k, "red") <==> (a, x) in ColorEdges(g, "red")
    ensures (a, x) in OtherEdges(k, "red") <==> (a, x) in OtherEdges(g, "red")
  {
    assert Attr(g, a, x).Some?;
    assert Attr(k, a, x) == if x in ListOf(temp, a) then Some(PINK) else Attr(g, a, x);
    ColorsByAttr(k, "red", a, x);
    ColorsByAttr(g, "red", a, x);
  }

  /** The temporary edges make no cycle. */
  lemma OrderedKeepsCycles(g: GState, k: GState, temp: map<Id, seq<Id>>, main: Id)
    requires PinkAdded(g, k, temp) && Harmless(EdgesOf(g), EdgesOf(k), main)
    ensures AcyclicBelow(RealEdges(k, "red"), main) <==> AcyclicBelow(RealEdges(g, "red"), main)
  {
    var E, F := RealEdges(g, "red"), RealEdges(k, "red");
    OrderedRealEdges(g, k, temp);
    hide PinkAdded, RealEdges, EdgesOf;
    forall v
      ensures Reach(F, main, v) <==> Reach(E, main, v)
      ensures Plus(F, v, v) <==> Plus(E, v, v)
    {
      RealReach(g, main, v);
      RealReach(k, main, v);
      if Reach(E, main, v) {
        ReachMono(E, F, main, v);
      }
      if Plus(E, v, v) {
        PlusMono(E, F, v, v);
      }
      if Plus(F, v, v) {
        HarmlessWithin(EdgesOf(g), EdgesOf(k), main, F, v);
      }
    }
  }

  /** What a caller can look up: below the module no chain of whole-static edges competes
      with one that another edge ends, nor with a temporary edge between two listed
      libraries. */
  ghost predicate Unclashed(g: GState, main: Id, statics: seq<Id>) {
    && (forall a, x :: Reach(EdgesOf(g), main, a) && ViaColor(g, "red", a, x) ==> !Plus(ColorEdges(g, "red"), a, x))
    && (forall a, l, x :: Reach(EdgesOf(g), main, a) && Reach(ColorEdges(g, "red"), a, l) && Earlier(statics, l, x) ==>
          Reach(EdgesOf(g), x, l) || !Plus(ColorEdges(g, "red"), a, x))
  }

  lemma UnclashedRun(r: Run, main: Id, statics: seq<Id>)
    requires IsRun(r, main, statics) && Unclashed(r.declared, main, statics)
    ensures NoClash(ColorEdges(r.sub, "red"), OtherEdges(r.sub, "red"))
  {
    var R, B := ColorEdges(r.sub, "red"), OtherEdges(r.sub, "red");
    hide Mirror, OrderedTo, IsSubgraph, PinkAdded, Prioritized, Collapsing, EdgesOf, ColorEdges, OtherEdges, Unclashed;
    ReachRefl(EdgesOf(r.ordered), main);
    SubgraphEdges(r.ordered, main, r.sub);
    PinkIsNotRed(r.declared, r.ordered, r.temp);
    RedShrinks(r.declared, r.ordered, main, r.sub);
    forall a, x | Via(R, B, a, x)
      ensures !Plus(R, a, x)
    {
      if Plus(R, a, x) {
        var u :| Reach(R, a, u) && (u, x) in B;
        assert (u, x) in OtherEdges(r.ordered, "red") by {
          SubgraphOthers(r.ordered, main, r.sub, u, x);
        }
        PlusMono(R, ColorEdges(r.declared, "red"), a, x);
        ReachMono(R, ColorEdges(r.declared, "red"), a, u);
        NoClashAt(r, main, statics, a, u, x);
      }
    }
  }

  lemma SubgraphOthers(g: GState, m: Id, h: GState, a: Id, x: Id)
    requires Mirror(g) && IsSubgraph(g, m, h)
    ensures (a, x) in OtherEdges(h, "red") <==> (a, x) in OtherEdges(g, "red") && Reach(EdgesOf(g), m, a)
  {
    hide *;
    SubgraphEdges(g, m, h);
    OtherIs(g, a, x);
    OtherIs(h, a, x);
  }

  lemma OtherIs(g: GState, a: Id, x: Id)
    ensures (a, x) in OtherEdges(g, "red") <==> (a, x) in EdgesOf(g) && (a, x) !in ColorEdges(g, "red")
  {
  }

  lemma NoClashAt(r: Run, main: Id, statics: seq<Id>, a: Id, u: Id, x: Id)
    requires IsRun(r, main, statics) && Unclashed(r.declared, main, statics)
    requires Reach(EdgesOf(r.declared), main, a) && Reach(ColorEdges(r.declared, "red"), a, u)
    requires (u, x) in OtherEdges(r.ordered, "red")
    ensures !Plus(ColorEdges(r.declared, "red"), a, x)
  {
    hide Mirror, OrderedTo, IsSubgraph, PinkAdded, Prioritized, Collapsing, Earlier;
    var D, K := EdgesOf(r.declared), EdgesOf(r.ordered);
    assert (u, x) in K;
    if (u, x) in D {
      OldEdgeKeepsColor(r.declared, r.ordered, r.temp, u, x);
      assert ViaColor(r.declared, "red", a, x);
    } else {
      assert Earlier(statics, u, x);
      if Reach(D, x, u) {
        ReachMono(D, K, x, u);
      }
    }
  }

  /** A run finds a cycle only where there is one of more than red loops below the module,
      and when no whole-static chain competes with another one it finds it exactly then. */
  lemma CycleVerdict(r: Run, main: Id, statics: seq<Id>)
    requires IsRun(r, main, statics)
    ensures AcyclicBelow(RealEdges(r.declared, "red"), main) ==> Acyclic(EdgesOf(r.final))
    ensures Acyclic(Loopless(ColorEdges(r.sub, "red"))) &&
            NoClash(ColorEdges(r.sub, "red"), OtherEdges(r.sub, "red")) ==>
              (AcyclicBelow(RealEdges(r.declared, "red"), main) <==> Acyclic(EdgesOf(r.final)))
  {
    hide Mirror, Harmless, OrderedTo, OnlyPairs, IsSubgraph, Prioritized, SameLinks, Collapsing;
    hide EdgesOf, ColorEdges, OtherEdges, NoClash, Acyclic, AcyclicBelow, Loopless;
    OrderedKeepsCycles(r.declared, r.ordered, r.temp, main);
    SubgraphRealCycles(r.ordered, main, r.sub);
    PrioritizedLinks(r.sub, r.prio, main);
    SameLinksEdges(r.sub, r.prio);
    CollapsedReach(r.prio, r.collapsed, "red", main);
    SubgraphCycles(r.collapsed, main, r.final);
  }

  /** Clashes or not, a cycle is found if one of its nodes is not entered by any
      whole-static edge. */
  lemma CycleIsFound(r: Run, main: Id, statics: seq<Id>, v: Id)
    requires IsRun(r, main, statics) && !EnteredBelow(r.declared, main, v)
    requires Reach(EdgesOf(r.declared), main, v) && Plus(EdgesOf(r.declared), v, v)
    ensures !Acyclic(EdgesOf(r.final))
  {
    hide *;
    var D, E := EdgesOf(r.declared), EdgesOf(r.collapsed);
    ReachRefl(D, main);
    UnenteredReach(r, main, statics, main, v);
    UnenteredReach(r, main, statics, v, v);
    ReachCases(D, main, v);
    ReachCases(E, main, v);
    CycleBelow(E, main, v);
    FinalCycles(r, main, statics);
  }

  lemma CycleBelow(E: Edges, a: Id, v: Id)
    requires Reach(E, a, v) && Plus(E, v, v)
    ensures !AcyclicBelow(E, a)
  {
  }

  lemma FinalCycles(r: Run, main: Id, statics: seq<Id>)
    requires IsRun(r, main, statics)
    ensures Acyclic(EdgesOf(r.final)) <==> AcyclicBelow(EdgesOf(r.collapsed), main)
  {
    SubgraphCycles(r.collapsed, main, r.final);
  }

  /** What no whole-static edge enters is reached after the collapse from where it was
      reached in the graph with the temporary edges. */
  lemma UnenteredReach(r: Run, main: Id, statics: seq<Id>, a: Id, x: Id)
    requires IsRun(r, main, statics) && !EnteredBelow(r.declared, main, x)
    requires Reach(EdgesOf(r.declared), main, a)
    ensures Plus(EdgesOf(r.collapsed), a, x) <==> Plus(EdgesOf(r.ordered), a, x)
    ensures Plus(EdgesOf(r.declared), a, x) ==> Plus(EdgesOf(r.collapsed), a, x)
  {
    hide Mirror, OrderedTo, OnlyPairs, IsSubgraph, PinkAdded, Prioritized, SameLinks, EdgesOf, ColorEdges, EnteredBelow;
    if EnteredBy(r.prio, "red", x) {
      EnteredWasDeclared(r, main, statics, x);
    }
    assert Reaches(r.prio, r.collapsed, "red");
    PrioritizedLinks(r.sub, r.prio, main);
    SameLinksEdges(r.sub, r.prio);
    ReachMono(EdgesOf(r.declared), EdgesOf(r.ordered), main, a);
    SubgraphReach(r.ordered, main, r.sub, a, x);
    if Plus(EdgesOf(r.declared), a, x) {
      PlusMono(EdgesOf(r.declared), EdgesOf(r.ordered), a, x);
    }
  }

  /** libs are the nodes below the module once whole-static edges are collapsed, each one
      once and in front of every library it still has an edge to. */
  ghost predicate IsLinkOrder(E: Edges, main: Id, libs: seq<Id>) {
    && NoDup(libs)
    && (forall x :: x in libs <==> x != main && Reach(E, main, x))
    && Forward(E, libs)
  }

  /** The head that is popped off the sorted list is the module. */
  lemma HeadIsMain(r: Run, main: Id, statics: seq<Id>, list: seq<Id>)
    requires IsRun(r, main, statics)
    requires AllNodesOnce(r.final, list) && Forward(EdgesOf(r.final), list)
    ensures list != [] && list[0] == main
    ensures IsLinkOrder(EdgesOf(r.collapsed), main, list[1..])
  {
    hide *;
    var E, F := EdgesOf(r.collapsed), EdgesOf(r.final);
    ListFacts(r, main, statics, list);
    var i :| 0 <= i < |list| && list[i] == main;
    MainComesFirst(F, list, i, 0);
    TailIsLinkOrder(E, F, list, main);
  }

  lemma ListFacts(r: Run, main: Id, statics: seq<Id>, list: seq<Id>)
    requires IsRun(r, main, statics)
    requires AllNodesOnce(r.final, list) && Forward(EdgesOf(r.final), list)
    ensures var E, F := EdgesOf(r.collapsed), EdgesOf(r.final);
            && NoDup(list) && main in list
            && (forall x :: x in list <==> Reach(E, main, x))
            && (forall x :: x in list ==> Reach(F, main, x))
            && (forall a, x :: (a, x) in F <==> (a, x) in E && Reach(E, main, a))
            && (forall a, x :: (a, x) in F ==> x in list)
            && Forward(F, list)
  {
    var E, F := EdgesOf(r.collapsed), EdgesOf(r.final);
    FinalEdges(r, main, statics);
    ReachRefl(E, main);
    hide IsRun, EdgesOf, NoDup;
    forall x
      ensures x in list <==> Reach(E, main, x)
      ensures Reach(E, main, x) ==> Reach(F, main, x)
    {
      FinalNodes(r, main, statics, x);
    }
    forall a, x | (a, x) in F
      ensures x in list
    {
      ReachEdge(E, a, x);
      ReachTrans(E, main, a, x);
    }
  }

  lemma FinalEdges(r: Run, main: Id, statics: seq<Id>)
    requires IsRun(r, main, statics)
    ensures forall a, x :: (a, x) in EdgesOf(r.final) <==>
              (a, x) in EdgesOf(r.collapsed) && Reach(EdgesOf(r.collapsed), main, a)
  {
    SubgraphEdges(r.collapsed, main, r.final);
  }

  lemma TailIsLinkOrder(E: Edges, F: Edges, list: seq<Id>, main: Id)
    requires NoDup(list) && list != [] && list[0] == main
    requires forall x :: x in list <==> Reach(E, main, x)
    requires forall a, x :: (a, x) in F <==> (a, x) in E && Reach(E, main, a)
    requires Forward(F, list)
    ensures IsLinkOrder(E, main, list[1..])
  {
    var libs := list[1..];
    assert list == [main] + libs;
    forall x
      ensures x in libs <==> x != main && x in list
    {
      if x in libs {
        var k :| 0 <= k < |libs| && libs[k] == x;
        assert list[k + 1] == x;
      }
    }
    forall i, j | 0 <= i < |libs| && 0 <= j < |libs| && (libs[i], libs[j]) in E
      ensures i < j
    {
      assert libs[i] == list[i + 1] && libs[j] == list[j + 1];
      assert list[i + 1] in list;
      assert (list[i + 1], list[j + 1]) in F;
    }
  }

  lemma FinalNodes(r: Run, main: Id, statics: seq<Id>, x: Id)
    requires IsRun(r, main, statics)
    ensures x in r.final <==> Reach(EdgesOf(r.collapsed), main, x)
    ensures Reach(EdgesOf(r.collapsed), main, x) ==> Reach(EdgesOf(r.final), main, x)
  {
    SubgraphNodes(r.collapsed, main, r.final, x);
  }

  lemma SubgraphNodes(g: GState, m: Id, h: GState, x: Id)
    requires Mirror(g) && IsSubgraph(g, m, h)
    ensures x in h <==> Reach(EdgesOf(g), m, x)
    ensures Reach(EdgesOf(g), m, x) ==> Reach(EdgesOf(h), m, x)
  {
    ReachRefl(EdgesOf(g), m);
    SpanIs(g, m, h, x);
    hide Mirror, IsSubgraph, EdgesOf;
    if Reach(EdgesOf(g), m, x) {
      SubgraphReach(g, m, h, m, x);
      if x != m {
        ReachCases(EdgesOf(g), m, x);
        PlusEndsAreNodes(g, m, x);
      }
    }
  }

  lemma SpanIs(g: GState, m: Id, h: GState, x: Id)
    requires IsSubgraph(g, m, h)
    ensures x in h <==> x == m || (x in g && Reach(EdgesOf(g), m, x))
  {
    ReachRefl(EdgesOf(g), m);
  }

  lemma PlusEndsAreNodes(g: GState, a: Id, x: Id)
    requires Mirror(g) && Plus(EdgesOf(g), a, x)
    ensures x in g
  {
    PlusLast(EdgesOf(g), a, x);
    var c :| Reach(EdgesOf(g), a, c) && (c, x) in EdgesOf(g);
    assert HasEdge(g, c, x) && HasSource(g, c, x);
  }

  /** Reaching never leads backwards in a topological order. */
  lemma MainComesFirst(F: Edges, list: seq<Id>, i: nat, j: nat)
    requires i < |list| && j < |list| && NoDup(list) && Reach(F, list[i], list[j])
    requires Forward(F, list)
    requires forall a, b :: (a, b) in F ==> b in list
    ensures i <= j
  {
    var S := iset x | x in list[i..];
    forall x, y | (x, y) in F && x in S
      ensures y in S
    {
      var a :| 0 <= a < |list[i..]| && list[i..][a] == x;
      var b :| 0 <= b < |list| && list[b] == y;
      assert list[i + a] == x;
      assert list[i..][b - i] == y;
    }
    assert list[i..][0] == list[i];
    ReachClosed(F, S, list[i], list[j]);
    var a :| 0 <= a < |list[i..]| && list[i..][a] == list[j];
    assert list[i + a] == list[j];
  }

  /** A whole-static edge from the module or from below it enters x. */
  ghost predicate EnteredBelow(declared: GState, main: Id, x: Id) {
    exists a :: Reach(EdgesOf(declared), main, a) && (a, x) in ColorEdges(declared, "red")
  }

  lemma EnteredWasDeclared(r: Run, main: Id, statics: seq<Id>, x: Id)
    requires IsRun(r, main, statics) && EnteredBy(r.prio, "red", x)
    ensures EnteredBelow(r.declared, main, x)
  {
    hide Mirror, OrderedTo, IsSubgraph, PinkAdded, Prioritized, SameLinks, Collapsing, EdgesOf, ColorEdges;
    PrioritizedLinks(r.sub, r.prio, main);
    SameLinksEdges(r.sub, r.prio);
    SubgraphEdges(r.ordered, main, r.sub);
    PinkIsNotRed(r.declared, r.ordered, r.temp);
  }

  /** An edge made for the module that ends where no whole-static edge enters is still
      there after the collapse. */
  lemma OrderedEdgeStays(r: Run, main: Id, statics: seq<Id>, a: Id, x: Id)
    requires IsRun(r, main, statics) && (a, x) in EdgesOf(r.ordered)
    requires Reach(EdgesOf(r.ordered), main, a) && !EnteredBelow(r.declared, main, x)
    ensures (a, x) in EdgesOf(r.collapsed)
  {
    assert Unentered(r.prio, r.collapsed, "red");
    if EnteredBy(r.prio, "red", x) {
      EnteredWasDeclared(r, main, statics, x);
    }
    hide Mirror, Harmless, OrderedTo, IsSubgraph, PinkAdded, Prioritized, SameLinks, Collapsing;
    hide EnteredBelow, EdgesOf, ColorEdges, OtherEdges;
    PrioritizedLinks(r.sub, r.prio, main);
    SameLinksEdges(r.sub, r.prio);
    SubgraphEdges(r.ordered, main, r.sub);
    assert (a, x) in EdgesOf(r.prio);
    assert (a, x) !in ColorEdges(r.prio, "red");
    assert (a, x) in OtherEdges(r.prio, "red");
  }

  /** Libraries listed so that none reaches an earlier one come out in the order they are
      listed in, wherever no whole-static edge enters the later one. */
  lemma DeclaredOrderIsKept(r: Run, main: Id, statics: seq<Id>, libs: seq<Id>, i: nat, j: nat)
    requires IsRun(r, main, statics) && IsLinkOrder(EdgesOf(r.collapsed), main, libs) && Acyclic(EdgesOf(r.final))
    requires forall l :: l in statics ==> (main, l) in EdgesOf(r.declared)
    requires Orderly(EdgesOf(r.declared), statics) && i < j < |statics|
    requires !EnteredBelow(r.declared, main, statics[j])
    ensures statics[j] in libs
    ensures forall p, q :: 0 <= p < |libs| && 0 <= q < |libs| && libs[p] == statics[i] && libs[q] == statics[j] ==>
              p < q
  {
    var a, x := statics[i], statics[j];
    var E := EdgesOf(r.collapsed);
    assert (main, a) in EdgesOf(r.declared) && (main, x) in EdgesOf(r.declared) by {
      assert a in statics && x in statics;
    }
    assert EdgesOf(r.declared) <= EdgesOf(r.ordered);
    assert (a, x) in EdgesOf(r.ordered);
    hide IsRun, Acyclic, Orderly, EnteredBelow, EdgesOf;
    ReachRefl(EdgesOf(r.ordered), main);
    ReachEdge(EdgesOf(r.ordered), main, a);
    OrderedEdgeStays(r, main, statics, main, x);
    OrderedEdgeStays(r, main, statics, a, x);
    ReachEdge(E, main, x);
    if x == main {
      LoopIsCycle(r, main, statics);
    }
    assert Forward(E, libs);
  }

  /*** Priorities in the list ***/

  /** Ten for each user, less one for each library pulled in. */
  ghost function Favour(h: GState, x: Id): int {
    (if x in h then 10 * |h[x].sources| else 0) - |Span(h, x)|
  }

  /** Of two libraries that one node still links to, one that nothing else in the list links
      to stands in front of the other if it has more users or pulls in less, by that count in
      the subgraph before the collapse, or as much and is linked first. */
  lemma FavouredLibsFirst(r: Run, main: Id, statics: seq<Id>, libs: seq<Id>, a: Id, x: Id, y: Id)
    requires IsRun(r, main, statics) && Acyclic(EdgesOf(r.final)) && |r.sub| < -MIN_INT
    requires [main] + libs == SortFrom(r.final, r.order).list
    requires (a, x) in EdgesOf(r.collapsed) && (a, y) in EdgesOf(r.collapsed) && a in [main] + libs && x != y
    requires forall p :: p in [main] + libs && (p, y) in EdgesOf(r.collapsed) ==> p == a
    requires || Favour(r.sub, x) < Favour(r.sub, y)
             || (Favour(r.sub, x) == Favour(r.sub, y) && ListedBefore(r.collapsed, a, y, x))
    ensures Before(libs, y, x)
  {
    hide *;
    var g := r.final;
    RunSorted(r, main, statics, libs);
    EdgesBelow(r, main, statics, a, x);
    EdgesBelow(r, main, statics, a, y);
    MainIsRoot(r, main, statics);
    RootIsNotUsed(g, main, a, x);
    RootIsNotUsed(g, main, a, y);
    FinalPriority(r, main, statics, x);
    FinalPriority(r, main, statics, y);
    FinalTargets(r, main, statics, a, x, y);
    FinalUsers(r, main, statics, libs, a, y);
    FavouredByPriority(g, a, x, y);
    FavouredFirst(g, r.order, main, a, x, y);
    BeforeHead(main, libs, y, x);
  }

  lemma RunSorted(r: Run, main: Id, statics: seq<Id>, libs: seq<Id>)
    requires IsRun(r, main, statics) && [main] + libs == SortFrom(r.final, r.order).list
    ensures Mirror(r.final) && AllNodesOnce(r.final, r.order)
    ensures forall v :: v in r.final <==> v in [main] + libs
  {
    SortIsTopological(r.final, r.order);
  }

  lemma EdgesBelow(r: Run, main: Id, statics: seq<Id>, a: Id, x: Id)
    requires IsRun(r, main, statics) && a in r.final && (a, x) in EdgesOf(r.collapsed)
    ensures (a, x) in EdgesOf(r.final) && x in r.final && x in r.final[a].targets
  {
    hide Mirror, Harmless, OrderedTo, OnlyPairs, PinkAdded, Prioritized, Collapsing, EdgesOf, Span;
    FinalNodes(r, main, statics, a);
    FinalEdges(r, main, statics);
    EdgeIsListed(r.final, a, x);
  }

  lemma EdgeIsListed(g: GState, a: Id, x: Id)
    requires Mirror(g) && (a, x) in EdgesOf(g)
    ensures a in g && x in g && x in g[a].targets
  {
    assert ListsItsEdges(g[a]);
    assert HasEdge(g, a, x) && HasSource(g, a, x);
  }

  lemma FinalPriority(r: Run, main: Id, statics: seq<Id>, x: Id)
    requires IsRun(r, main, statics) && x in r.final
    ensures PriorityOf(r.final, x) == if x == main then MIN_INT else Favour(r.sub, x)
  {
    hide Mirror, Harmless, OrderedTo, OnlyPairs, PinkAdded, Shrunk, Sound, Complete, Unentered, Reaches, EdgesOf, Span;
    MainIsCopied(r.ordered, main, r.sub);
    NodeBelow(r, main, statics, x);
  }

  /** What is below the module in the end was copied to begin with. */
  lemma NodeBelow(r: Run, main: Id, statics: seq<Id>, x: Id)
    requires IsRun(r, main, statics) && x in r.final
    ensures x in r.collapsed
  {
    hide Harmless, OrderedTo, OnlyPairs, PinkAdded, Shrunk, Sound, Complete, Unentered, Reaches, EdgesOf;
    MainIsCopied(r.ordered, main, r.sub);
  }

  lemma MainIsRoot(r: Run, main: Id, statics: seq<Id>)
    requires IsRun(r, main, statics) && |r.sub| < -MIN_INT
    ensures IsRoot(r.final, main)
  {
    hide Mirror, Harmless, OrderedTo, OnlyPairs, PinkAdded, Collapsing, Prioritized, IsSubgraph, EdgesOf, Span, Favour;
    MainIsCopied(r.collapsed, main, r.final);
    FinalPriority(r, main, statics, main);
    forall v | v in r.final
      ensures Reach(EdgesOf(r.final), main, v)
      ensures v != main ==> PriorityOf(r.final, main) < PriorityOf(r.final, v)
    {
      FinalNodes(r, main, statics, v);
      FinalPriority(r, main, statics, v);
      NodeBelow(r, main, statics, v);
      FavourIsMore(r, main, statics, v);
    }
  }

  lemma FavourIsMore(r: Run, main: Id, statics: seq<Id>, v: Id)
    requires IsRun(r, main, statics) && v in r.collapsed && |r.sub| < -MIN_INT
    ensures Favour(r.sub, v) > MIN_INT
  {
    hide Mirror, Harmless, OrderedTo, OnlyPairs, PinkAdded, Shrunk;
    hide Sound, Complete, Unentered, Reaches, EdgesOf, IsSubgraph;
    assert v in r.sub;
    SubsetSize(Span(r.sub, v), r.sub.Keys);
    assert |r.sub.Keys| == |r.sub|;
  }

  lemma FinalTargets(r: Run, main: Id, statics: seq<Id>, a: Id, x: Id, y: Id)
    requires IsRun(r, main, statics) && a in r.final
    ensures ListedBefore(r.final, a, y, x) <==> ListedBefore(r.collapsed, a, y, x)
  {
    hide Mirror, Harmless, OrderedTo, OnlyPairs, PinkAdded, Collapsing, Prioritized, EdgesOf, Span, Before;
    NodeBelow(r, main, statics, a);
  }

  lemma FinalUsers(r: Run, main: Id, statics: seq<Id>, libs: seq<Id>, a: Id, y: Id)
    requires IsRun(r, main, statics) && forall v :: v in r.final <==> v in [main] + libs
    requires forall p :: p in [main] + libs && (p, y) in EdgesOf(r.collapsed) ==> p == a
    ensures OnlyUser(EdgesOf(r.final), a, y)
  {
    hide Mirror, Harmless, OrderedTo, OnlyPairs, PinkAdded, Collapsing, Prioritized, IsSubgraph, EdgesOf, Span;
    FinalEdges(r, main, statics);
    forall p | (p, y) in EdgesOf(r.final)
      ensures p == a
    {
      FinalNodes(r, main, statics, p);
    }
  }

  lemma FavouredByPriority(g: GState, a: Id, x: Id, y: Id)
    requires PriorityOf(g, x) < PriorityOf(g, y) || (PriorityOf(g, x) == PriorityOf(g, y) && ListedBefore(g, a, y, x))
    ensures Favoured(g, a, y, x)
  {
  }

  lemma LoopIsCycle(r: Run, main: Id, statics: seq<Id>)
    requires IsRun(r, main, statics) && Acyclic(EdgesOf(r.final))
    ensures (main, main) !in EdgesOf(r.collapsed)
  {
    FinalEdges(r, main, statics);
    ReachRefl(EdgesOf(r.collapsed), main);
    ReachRefl(EdgesOf(r.final), main);
    assert !Plus(EdgesOf(r.final), main, main);
  }

  /** Clashes or not, a library that no whole-static edge enters is listed exactly when it
      is below the module in the declared graph. */
  lemma ListedExactly(r: Run, main: Id, statics: seq<Id>, libs: seq<Id>, x: Id)
    requires IsRun(r, main, statics) && IsLinkOrder(EdgesOf(r.collapsed), main, libs)
    requires !EnteredBelow(r.declared, main, x) && x != main
    ensures x in libs <==> Reach(EdgesOf(r.declared), main, x)
  {
    hide IsRun, EdgesOf, EnteredBelow, Plus, Reach;
    ReachRefl(EdgesOf(r.declared), main);
    UnenteredReach(r, main, statics, main, x);
    ReachCases(EdgesOf(r.declared), main, x);
    ReachCases(EdgesOf(r.collapsed), main, x);
    if x in libs {
      CollapsedStaysBelow(r, main, statics, x);
    }
  }

  /** An edge that is not whole-static leads from below the module to x. */
  ghost predicate LinkedBelow(g: GState, main: Id, x: Id) {
    exists u :: Reach(EdgesOf(g), main, u) && (u, x) in OtherEdges(g, "red")
  }

  /** In a run without clashes the result lists exactly the ends of edges, declared or
      temporary, that are not whole-static; what is only linked whole goes. */
  lemma ListedInRun(r: Run, main: Id, statics: seq<Id>, libs: seq<Id>, x: Id)
    requires IsRun(r, main, statics) && IsLinkOrder(EdgesOf(r.collapsed), main, libs) && x != main
    requires Acyclic(Loopless(ColorEdges(r.sub, "red")))
    requires NoClash(ColorEdges(r.sub, "red"), OtherEdges(r.sub, "red"))
    ensures x in libs <==> LinkedBelow(r.ordered, main, x)
  {
    CollapsedLinks(r, main, statics, x);
    ReachCases(EdgesOf(r.collapsed), main, x);
  }

  /** A temporary edge leads to x. */
  ghost predicate OrderedInto(r: Run, x: Id) {
    exists l :: (l, x) in EdgesOf(r.ordered) && (l, x) !in EdgesOf(r.declared)
  }

  /** A library listed before x is not linked to it yet. */
  ghost predicate Unlinked(E: Edges, libs: seq<Id>, x: Id) {
    exists l :: Earlier(libs, l, x) && (l, x) !in E
  }

  /** Where the declared graph has no competing chains below the module, the result lists
      exactly what an edge other than a whole-static one leads to, and what a temporary edge
      does: if no listed library reaches an earlier one, that is what some library listed
      before it is not linked to yet. */
  lemma ListedWithoutClash(r: Run, main: Id, statics: seq<Id>, libs: seq<Id>, x: Id)
    requires IsRun(r, main, statics) && IsLinkOrder(EdgesOf(r.collapsed), main, libs) && x != main
    requires NoRedCycleBelow(r.declared, main) && Unclashed(r.declared, main, statics)
    requires forall l :: l in statics ==> (main, l) in EdgesOf(r.declared)
    ensures x in libs <==> LinkedBelow(r.declared, main, x) || OrderedInto(r, x)
    ensures x !in statics ==> !OrderedInto(r, x)
    ensures Orderly(EdgesOf(r.declared), statics) ==> (OrderedInto(r, x) <==> Unlinked(EdgesOf(r.declared), statics, x))
  {
    hide *;
    RunIs(r, main, statics);
    RedIsAcyclic(r.declared, r.ordered, r.temp, main, r.sub);
    UnclashedRun(r, main, statics);
    ListedInRun(r, main, statics, libs, x);
    DeclaredLinks(r, main, statics, x);
    OrderedPairs(r, main, statics, x);
  }

  lemma RunIs(r: Run, main: Id, statics: seq<Id>)
    requires IsRun(r, main, statics)
    ensures Mirror(r.ordered) && PinkAdded(r.declared, r.ordered, r.temp) && IsSubgraph(r.ordered, main, r.sub)
    ensures Harmless(EdgesOf(r.declared), EdgesOf(r.ordered), main)
  {
  }

  lemma OrderedPairs(r: Run, main: Id, statics: seq<Id>, x: Id)
    requires IsRun(r, main, statics)
    ensures x !in statics ==> !OrderedInto(r, x)
    ensures Orderly(EdgesOf(r.declared), statics) ==> (OrderedInto(r, x) <==> Unlinked(EdgesOf(r.declared), statics, x))
  {
    var D, K := EdgesOf(r.declared), EdgesOf(r.ordered);
    hide Mirror, Harmless, IsSubgraph, PinkAdded, Prioritized, Collapsing, EdgesOf, Orderly;
    if l :| (l, x) in K && (l, x) !in D {
      assert Earlier(statics, l, x);
    }
    if Orderly(D, statics) && Unlinked(D, statics, x) {
      var l :| Earlier(statics, l, x) && (l, x) !in D;
      var i, j :| 0 <= i < j < |statics| && statics[i] == l && statics[j] == x;
      assert (statics[i], statics[j]) in K;
    }
  }

  lemma CollapsedLinks(r: Run, main: Id, statics: seq<Id>, x: Id)
    requires IsRun(r, main, statics) && Acyclic(Loopless(ColorEdges(r.sub, "red")))
    requires NoClash(ColorEdges(r.sub, "red"), OtherEdges(r.sub, "red"))
    ensures Plus(EdgesOf(r.collapsed), main, x) <==> LinkedBelow(r.ordered, main, x)
  {
    hide Mirror, Harmless, OrderedTo, OnlyPairs, IsSubgraph, PinkAdded, Prioritized, SameLinks, Collapsing;
    hide EdgesOf, ColorEdges, OtherEdges, NoClash, Acyclic, Loopless;
    var R, B, F := ColorEdges(r.sub, "red"), OtherEdges(r.sub, "red"), EdgesOf(r.collapsed);
    PrioritizedLinks(r.sub, r.prio, main);
    SameLinksEdges(r.sub, r.prio);
    CollapsedEdges(r.prio, r.collapsed, "red");
    assert forall a, y :: (a, y) in F <==> Via(R, B, a, y) by {
      assert forall a, y :: ViaColor(r.prio, "red", a, y) <==> Via(R, B, a, y);
    }
    assert R + B == EdgesOf(r.sub);
    ReachRefl(EdgesOf(r.ordered), main);
    forall u
      ensures Reach(R + B, main, u) && (u, x) in B <==>
                Reach(EdgesOf(r.ordered), main, u) && (u, x) in OtherEdges(r.ordered, "red")
    {
      SubgraphReach(r.ordered, main, r.sub, main, u);
      SubgraphOthers(r.ordered, main, r.sub, u, x);
    }
    ChainEnds(R, B, F, main, x);
  }

  lemma ChainEnds(R: Edges, B: Edges, F: Edges, m: Id, x: Id)
    requires forall a, y :: (a, y) in F <==> Via(R, B, a, y)
    ensures Plus(F, m, x) <==> exists u :: Reach(R + B, m, u) && (u, x) in B
  {
    if Plus(F, m, x) {
      PlusLast(F, m, x);
      var c :| Reach(F, m, c) && (c, x) in F;
      ReachCases(F, m, c);
      if m != c {
        forall a, y | (a, y) in F
          ensures Plus(R + B, a, y)
        {
          ViaPlus(R, B, a, y);
        }
        PlusTransfers(F, R + B, m, c);
      }
      ReachCases(R + B, m, c);
      var u :| Reach(R, c, u) && (u, x) in B;
      ReachMono(R, R + B, c, u);
      ReachTrans(R + B, m, c, u);
    }
    if u :| Reach(R + B, m, u) && (u, x) in B {
      CollapsedChain(R, B, F, m, u, x);
    }
  }

  lemma DeclaredLinks(r: Run, main: Id, statics: seq<Id>, x: Id)
    requires IsRun(r, main, statics) && forall l :: l in statics ==> (main, l) in EdgesOf(r.declared)
    ensures LinkedBelow(r.ordered, main, x) <==> LinkedBelow(r.declared, main, x) || OrderedInto(r, x)
  {
    var D, K := EdgesOf(r.declared), EdgesOf(r.ordered);
    hide Mirror, OrderedTo, IsSubgraph, PinkAdded, Prioritized, Collapsing, EdgesOf, OtherEdges;
    if u :| Reach(D, main, u) && (u, x) in OtherEdges(r.declared, "red") {
      ReachMono(D, K, main, u);
      OldEdgeKeepsColor(r.declared, r.ordered, r.temp, u, x);
    }
    if l :| (l, x) in K && (l, x) !in D {
      NewEdgeIsPink(r.declared, r.ordered, r.temp, l, x);
      assert Earlier(statics, l, x);
      ReachEdge(K, main, l);
    }
    if u :| Reach(K, main, u) && (u, x) in OtherEdges(r.ordered, "red") && !OrderedInto(r, x) {
      assert Reach(D, main, u) && (u, x) in K;
      OldEdgeKeepsColor(r.declared, r.ordered, r.temp, u, x);
    }
  }

  lemma NewEdgeIsPink(g: GState, k: GState, temp: map<Id, seq<Id>>, a: Id, x: Id)
    requires PinkAdded(g, k, temp) && (a, x) in EdgesOf(k) && (a, x) !in EdgesOf(g)
    ensures (a, x) in OtherEdges(k, "red")
  {
    assert Attr(g, a, x).None?;
    assert Attr(k, a, x) == if x in ListOf(temp, a) then Some(PINK) else Attr(g, a, x);
    ColorsByAttr(k, "red", a, x);
    PinkAndRed();
  }

  /** The result lists nothing that is not below the module in the declared graph. */
  lemma CollapsedStaysBelow(r: Run, main: Id, statics: seq<Id>, x: Id)
    requires IsRun(r, main, statics) && Reach(EdgesOf(r.collapsed), main, x)
    ensures Reach(EdgesOf(r.declared), main, x)
  {
    hide Mirror, OrderedTo, IsSubgraph, PinkAdded, Prioritized, SameLinks, Collapsing, EdgesOf, ColorEdges;
    PrioritizedLinks(r.sub, r.prio, main);
    SameLinksEdges(r.sub, r.prio);
    ReachRefl(EdgesOf(r.ordered), main);
    SubgraphReach(r.ordered, main, r.sub, main, x);
    CollapsedReachOnly(r.prio, r.collapsed, main, x);
  }

  lemma CollapsedReachOnly(g0: GState, g: GState, m: Id, x: Id)
    requires Collapsing(g0, g, "red") && ColorEdges(g, "red") == {} && Reach(EdgesOf(g), m, x)
    ensures Reach(EdgesOf(g0), m, x)
  {
    var R0, B0 := ColorEdges(g0, "red"), OtherEdges(g0, "red");
    assert R0 + B0 == EdgesOf(g0);
    CollapsedEdges(g0, g, "red");
    forall a, y | (a, y) in EdgesOf(g)
      ensures Plus(EdgesOf(g0), a, y)
    {
      assert ViaColor(g0, "red", a, y);
      ViaPlus(R0, B0, a, y);
    }
    ReachCases(EdgesOf(g), m, x);
    ReachCases(EdgesOf(g0), m, x);
    if m != x {
      PlusTransfers(EdgesOf(g), EdgesOf(g0), m, x);
    }
  }

  /*** The resolver ***/

  /** The graph the resolver starts from: a splittable module is added first. */
  function Entered(g: GState, main: Id, splittable: bool): GState {
    if splittable then WithNode(g, main) else g
  }

  ghost predicate LibsPresent(g: GState, main: Id, statics: seq<Id>, wholes: seq<Id>) {
    AllPresent(g, main, statics) && AllPresent(g, main, wholes)
  }

  /** What is asked of the caller: the module's and the known whole-static edges make no
      cycle of more than one node below the module. */
  ghost predicate NoRedCycle(g: GState, main: Id, statics: seq<Id>, wholes: seq<Id>) {
    LibsPresent(g, main, statics, wholes) ==> NoRedCycleBelow(Declared(g, main, statics, wholes), main)
  }

  lemma EnteredIs(g: GState, main: Id, splittable: bool)
    ensures Entered(g, main, splittable) == if splittable then WithNode(g, main) else g
  {
  }

  lemma PresentOnBoth(g: GState, main: Id, statics: seq<Id>, wholes: seq<Id>)
    ensures LibsPresent(g, main, statics, wholes) <==> AllPresent(g, main, statics) && AllPresent(g, main, wholes)
    ensures AllPresent(g, main, statics) ==>
              var h := Declare(g, main, statics, "blue");
              && (AllPresent(h, main, wholes) <==> AllPresent(g, main, wholes))
              && (forall l :: FirstMissing(h, main, wholes, l) ==> FirstMissing(g, main, wholes, l))
  {
    if AllPresent(g, main, statics) {
      var h := Declare(g, main, statics, "blue");
      forall l | FirstMissing(h, main, wholes, l)
        ensures FirstMissing(g, main, wholes, l)
      {
        var i :| 0 <= i < |wholes| && wholes[i] == l && !(main in h && l in h) && AllPresent(h, main, wholes[..i]);
        assert wholes[i] == l && !(main in g && l in g) && AllPresent(g, main, wholes[..i]);
      }
    }
  }

  lemma DeclaredIs(g: GState, main: Id, statics: seq<Id>, wholes: seq<Id>)
    requires LibsPresent(g, main, statics, wholes) && NoRedCycle(g, main, statics, wholes)
    ensures AllPresent(g, main, statics) && AllPresent(Declare(g, main, statics, "blue"), main, wholes)
    ensures Declared(g, main, statics, wholes) == Declare(Declare(g, main, statics, "blue"), main, wholes, "red")
    ensures NoRedCycleBelow(Declared(g, main, statics, wholes), main)
    ensures forall l :: l in statics ==> l in statics + wholes
  {
  }

  lemma MainIsCopied(g: GState, main: Id, h: GState)
    requires IsSubgraph(g, main, h)
    ensures main in h
  {
  }

  lemma ItIsARun(r: Run, main: Id, statics: seq<Id>)
    requires Mirror(r.declared) && Mirror(r.ordered) && Mirror(r.prio) && Mirror(r.collapsed)
    requires PinkAdded(r.declared, r.ordered, r.temp) && Harmless(EdgesOf(r.declared), EdgesOf(r.ordered), main)
    requires OnlyPairs(EdgesOf(r.declared), EdgesOf(r.ordered), statics)
    requires |statics| > 0 ==> OrderedTo(EdgesOf(r.declared), EdgesOf(r.ordered), statics, |statics|, 0)
    requires IsSubgraph(r.ordered, main, r.sub) && Prioritized(r.sub, r.prio, main)
    requires Collapsing(r.prio, r.collapsed, "red") && ColorEdges(r.collapsed, "red") == {}
    requires IsSubgraph(r.collapsed, main, r.final) && AllNodesOnce(r.final, r.order)
    ensures IsRun(r, main, statics)
  {
  }

  lemma NotEmpty(g: GState, main: Id, h: GState, list: seq<Id>)
    requires IsSubgraph(g, main, h) && AllNodesOnce(h, list)
    ensures list != []
  {
    assert main in list;
  }

  /** Sets the priorities, collapses the whole-static edges and sorts what is left below
      the module. */
  method CollapseAndSort(sub: Graph, main: Id)
    returns (list: seq<Id>, isDAG: bool, ghost prio: GState, ghost collapsed: GState, ghost final: GState,
             ghost order: seq<Id>)
    requires sub.Valid() && main in sub.State() && Acyclic(Loopless(ColorEdges(sub.State(), "red")))
    modifies sub.nodeMap.Values
    ensures Mirror(prio) && Mirror(collapsed) && Mirror(final)
    ensures Prioritized(old(sub.State()), prio, main)
    ensures Collapsing(prio, collapsed, "red") && ColorEdges(collapsed, "red") == {}
    ensures IsSubgraph(collapsed, main, final) && AllNodesOnce(final, order)
    ensures list == SortFrom(final, order).list && isDAG == SortFrom(final, order).isDAG
  {
    hide *;
    ghost var h := sub.State();
    SetPriorities(sub, main);
    prio := sub.State();
    PrioritizedLinks(h, prio, main);
    SameLinksEdges(h, prio);
    var _ := sub.DeleteProxyEdges("red");
    collapsed := sub.State();
    var sub2 := GetSubgraph(sub, main);
    final := sub2.State();
    list, isDAG, order := TopologicalSort(sub2);
  }

  /** Sorts the static libraries below the module. The shared graph keeps the declared
      edges and nothing else. */
  method ResolveDependencySort(g: Graph, main: Id, splittable: bool, statics: seq<Id>, wholes: seq<Id>)
    returns (r: Outcome, ghost run: Run)
    requires g.Valid()
    requires NoRedCycle(Entered(g.State(), main, splittable), main, statics, wholes)
    modifies g, g.nodeMap.Values
    ensures g.Valid()
    ensures r.MissingLib? <==> !LibsPresent(Entered(old(g.State()), main, splittable), main, statics, wholes)
    ensures r.MissingLib? ==>
              || FirstMissing(Entered(old(g.State()), main, splittable), main, statics, r.lib)
              || FirstMissing(Entered(old(g.State()), main, splittable), main, wholes, r.lib)
    ensures !r.MissingLib? ==>
              && g.State() == Declared(Entered(old(g.State()), main, splittable), main, statics, wholes)
              && run.declared == g.State()
              && IsRun(run, main, statics)
              && (r.CycleFound? <==> !Acyclic(EdgesOf(run.final)))
    ensures !r.MissingLib? && AcyclicBelow(RealEdges(run.declared, "red"), main) ==> r.Resolved?
    ensures !r.MissingLib? && Unclashed(run.declared, main, statics) ==>
              (r.CycleFound? <==> !AcyclicBelow(RealEdges(run.declared, "red"), main))
    ensures r.Resolved? ==> IsLinkOrder(EdgesOf(run.collapsed), main, r.libs)
    ensures r.Resolved? ==> [main] + r.libs == SortFrom(run.final, run.order).list
  {
    hide *;
    run := Run(map[], map[], map[], map[], map[], map[], map[], []);
    ghost var g0 := Entered(g.State(), main, splittable);
    EnteredIs(g.State(), main, splittable);
    if splittable {
      var _ := g.AddNode(main);
    }
    assert g.State() == g0;
    PresentOnBoth(g0, main, statics, wholes);

    var missing := DeclareLibs(g, main, statics, "blue");
    if missing.Some? {
      return MissingLib(missing.value), run;
    }
    var missing2 := DeclareLibs(g, main, wholes, "red");
    if missing2.Some? {
      return MissingLib(missing2.value), run;
    }
    ghost var declared := g.State();
    DeclaredIs(g0, main, statics, wholes);
    DeclaredKeeps(g0, main, statics, wholes);

    var temp := AddOrderingEdges(g, statics, main);
    ghost var ordered := g.State();
    var sub := GetSubgraph(g, main);
    ghost var h := sub.State();
    RemoveOrderingEdges(g, temp, declared);

    MainIsCopied(ordered, main, h);
    RedIsAcyclic(declared, ordered, temp, main, h);
    var list, isDAG, prio, collapsed, final, order := CollapseAndSort(sub, main);
    run := Run(declared, temp, ordered, h, prio, collapsed, final, order);
    ItIsARun(run, main, statics);
    SortIsTopological(final, order);
    CycleVerdict(run, main, statics);
    if Unclashed(declared, main, statics) {
      UnclashedRun(run, main, statics);
    }
    if isDAG {
      HeadIsMain(run, main, statics, list);
    }
    NotEmpty(collapsed, main, final, list);
    var libs := list[1..];
    assert list == [list[0]] + libs;
    if !isDAG {
      r := CycleFound;
    } else {
      r := Resolved(libs);
    }
  }
}
