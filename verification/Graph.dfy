/** The mutable dependency graph. Nodes are objects whose fields the graph's methods
    update in place; State() is the value they hold together. */
module Graphs {
  import opened Wrappers
  import opened Digraph
  import opened GraphState
  import opened ProxyCollapse
  import opened ProxyState
  import opened ProxyRuns

  class Node {
    const id: Id
    var priority: int
    var sources: set<Id>
    var edgeAttributes: map<Id, Attributes>
    var targets: seq<Id>

    constructor (id: Id)
      ensures this.id == id && View() == EMPTY_NODE
    {
      this.id := id;
      priority := 0;
      sources := {};
      edgeAttributes := map[];
      targets := [];
    }

    function View(): NodeRec
      reads this
    {
      NodeRec(priority, sources, edgeAttributes, targets)
    }
  }

  class Graph {
    const name: string
    var nodeMap: map<Id, Node>

    function State(): GState
      reads this, nodeMap.Values
    {
      map k | k in nodeMap :: nodeMap[k].View()
    }

    /** Each node sits under its own name, so no two names share a node, and the two
        copies of every edge agree. */
    ghost predicate Valid()
      reads this, nodeMap.Values
      ensures Valid() ==> Mirror(State())
    {
      && (forall k :: k in nodeMap ==> nodeMap[k].id == k)
      && Mirror(State())
    }

    constructor (name: string)
      ensures Valid() && State() == map[] && this.name == name
      ensures nodeMap.Values == {}
    {
      this.name := name;
      nodeMap := map[];
    }

    predicate HasNode(id: Id)
      reads this, nodeMap.Values
      ensures HasNode(id) <==> id in State()
    {
      id in nodeMap
    }

    predicate HasEdge(source: Id, target: Id)
      reads this, nodeMap.Values
      requires Valid()
      ensures HasEdge(source, target) <==> GraphState.HasEdge(State(), source, target)
    {
      assert source in nodeMap && target in nodeMap[source].edgeAttributes ==>
          GraphState.HasEdge(State(), source, target) && HasSource(State(), source, target);
      source in nodeMap && target in nodeMap && target in nodeMap[source].edgeAttributes
    }

    /** The targets in declaration order; a node the graph does not have has none. */
    function GetTargets(id: Id): seq<Id>
      reads this, nodeMap.Values
      ensures GetTargets(id) == if id in State() then State()[id].targets else []
    {
      if id in nodeMap then nodeMap[id].targets else []
    }

    function GetPriority(id: Id): int
      reads this, nodeMap.Values
      ensures GetPriority(id) == if id in State() then State()[id].priority else 0
    {
      if id in nodeMap then nodeMap[id].priority else 0
    }

    function GetEdgeAttributes(source: Id, target: Id): Option<Attributes>
      reads this, nodeMap.Values
      ensures GetEdgeAttributes(source, target) == Attr(State(), source, target)
    {
      if source in nodeMap && target in nodeMap[source].edgeAttributes
      then Some(nodeMap[source].edgeAttributes[target])
      else None
    }

    /** The names in whatever order the map yields them. */
    method GetNodes() returns (nodes: seq<Id>)
      ensures NoDup(nodes) && forall id :: id in nodes <==> id in State()
    {
      nodes := Listed(nodeMap.Keys);
    }

    /** The sources in whatever order the map yields them. */
    method GetSources(id: Id) returns (sources: seq<Id>)
      ensures NoDup(sources)
      ensures forall s :: s in sources <==> id in State() && s in State()[id].sources
      ensures |sources| == if id in State() then |State()[id].sources| else 0
    {
      if id in nodeMap {
        sources := Listed(nodeMap[id].sources);
      } else {
        sources := [];
      }
    }

    method AddNode(id: Id) returns (isNew: bool)
      requires Valid()
      modifies this
      ensures Valid() && State() == WithNode(old(State()), id)
      ensures isNew <==> id !in old(State())
      ensures fresh(nodeMap.Values - old(nodeMap.Values))
    {
      hide Mirror;
      WithNodeKeeps(State(), id);
      isNew := id !in nodeMap;
      if isNew {
        var n := new Node(id);
        nodeMap := nodeMap[id := n];
        assert State() == WithNode(old(State()), id);
      }
    }

    method SetNodePriority(id: Id, priority: int) returns (ok: bool)
      requires Valid()
      modifies nodeMap.Values
      ensures Valid() && nodeMap == old(nodeMap)
      ensures State() == WithPriority(old(State()), id, priority)
      ensures ok <==> id in old(State())
    {
      hide Mirror;
      WithPriorityKeeps(State(), id, priority);
      ok := id in nodeMap;
      if ok {
        nodeMap[id].priority := priority;
      }
      assert State() == WithPriority(old(State()), id, priority);
    }

    /** Adds the edge between nodes the graph has; an edge that is there already stays
        as it is. */
    method AddEdgeBetween(source: Id, target: Id) returns (isNew: bool)
      requires Valid() && source in State() && target in State()
      modifies nodeMap.Values
      ensures Valid() && nodeMap == old(nodeMap)
      ensures State() == WithEdge(old(State()), source, target)
      ensures isNew <==> !GraphState.HasEdge(old(State()), source, target)
    {
      hide Mirror;
      WithEdgeKeeps(State(), source, target);
      var s, t := nodeMap[source], nodeMap[target];
      isNew := target !in s.edgeAttributes;
      if isNew {
        s.targets := s.targets + [target];
        s.edgeAttributes := s.edgeAttributes[target := map[]];
        t.sources := t.sources + {source};
      }
      assert State() == WithEdge(old(State()), source, target);
    }

    method AddEdge(source: Id, target: Id) returns (isNew: bool)
      requires Valid()
      modifies this, nodeMap.Values
      ensures Valid()
      ensures State() == WithEdge(WithNode(WithNode(old(State()), source), target), source, target)
      ensures isNew <==> !GraphState.HasEdge(old(State()), source, target)
      ensures fresh(nodeMap.Values - old(nodeMap.Values))
    {
      hide Mirror;
      var _ := AddNode(source);
      var _ := AddNode(target);
      assert source in State() && target in State();
      isNew := AddEdgeBetween(source, target);
    }

    /** Overwrites the attributes of an edge; without the edge nothing happens. */
    method SetEdgeAttributes(source: Id, target: Id, attributes: Attributes) returns (ok: bool)
      requires Valid()
      modifies nodeMap.Values
      ensures Valid() && nodeMap == old(nodeMap)
      ensures State() == WithEdgeAttributes(old(State()), source, target, attributes)
      ensures ok <==> GraphState.HasEdge(old(State()), source, target)
    {
      hide Mirror;
      WithEdgeAttributesKeeps(State(), source, target, attributes);
      ok := HasEdge(source, target);
      if ok {
        var s := nodeMap[source];
        s.edgeAttributes := s.edgeAttributes[target := attributes];
      }
      assert State() == WithEdgeAttributes(old(State()), source, target, attributes);
    }

    method SetEdgeColor(source: Id, target: Id, color: string)
      requires Valid()
      modifies nodeMap.Values
      ensures Valid() && nodeMap == old(nodeMap)
      ensures State() == WithEdgeProperty(old(State()), source, target, "color", Quoted(color))
    {
      if HasEdge(source, target) {
        assert HasSource(State(), source, target);
        var _ := SetEdgeAttributes(source, target,
                                   nodeMap[source].edgeAttributes[target]["color" := Quoted(color)]);
      }
    }

    /** Takes the edge out of both its copies; without the edge nothing changes. */
    method DeleteEdge(source: Id, target: Id) returns (ok: bool)
      requires Valid()
      modifies nodeMap.Values
      ensures Valid() && nodeMap == old(nodeMap)
      ensures ok <==> source in old(State()) && target in old(State())
      ensures State() == if ok then WithoutEdge(old(State()), source, target) else old(State())
    {
      hide Mirror, Remove, WithoutEdge;
      ok := source in nodeMap && target in nodeMap;
      if ok {
        ghost var g := State();
        WithoutEdgeKeeps(g, source, target);
        var s, t := nodeMap[source], nodeMap[target];
        s.targets := Remove(s.targets, target);
        s.edgeAttributes := s.edgeAttributes - {target};
        t.sources := t.sources - {source};
        WithoutEdgeIs(g, State(), source, target);
      }
    }

    predicate EdgeHasColor(source: Id, target: Id, color: string)
      reads this, nodeMap.Values
      ensures EdgeHasColor(source, target, color) <==> HasColor(State(), color, source, target)
    {
      && source in nodeMap
      && target in nodeMap[source].edgeAttributes
      && ColorValue(nodeMap[source].edgeAttributes[target]) == Quoted(color)
    }

    /** Gives the source an edge to each of the targets, with the attributes the proxy's
        edge to it has. */
    method CopyEdges(source: Id, proxy: Id, targets: seq<Id>)
      requires Valid() && source in State() && proxy in State()
      requires NoDup(targets) && forall t :: t in targets ==> Attr(State(), proxy, t).Some?
      modifies nodeMap.Values
      ensures Valid() && nodeMap == old(nodeMap)
      ensures CopiedInto(old(State()), State(), {source}, proxy, targets)
    {
      hide Mirror, CopiedInto, WithEdge, WithEdgeAttributes, Attr, NoDup;
      ghost var g := State();
      CopiedNothing(g, {source}, proxy, []);
      assert targets[..0] == [];
      for i := 0 to |targets|
        invariant Valid() && nodeMap == old(nodeMap)
        invariant CopiedInto(g, State(), {source}, proxy, targets[..i])
      {
        ghost var h := State();
        var t := targets[i];
        CopyReady(g, h, source, proxy, targets, i);
        var attributes := nodeMap[proxy].edgeAttributes[t];
        var _ := AddEdgeBetween(source, t);
        var _ := SetEdgeAttributes(source, t, attributes);
        CopyDone(g, h, source, proxy, targets, i);
      }
      assert targets[..|targets|] == targets;
    }

    /** Replaces an edge by copies of the proxy's own edges. */
    method ReplaceProxyEdge(source: Id, proxy: Id)
      requires Valid() && source in State() && proxy in State()
      modifies nodeMap.Values
      ensures Valid() && nodeMap == old(nodeMap)
      ensures ProxyEdgeGone(old(State()), State(), source, proxy)
    {
      ghost var g := State();
      var targets := GetTargets(proxy);
      TargetsAreEdges(g, proxy);
      hide State, Valid, Mirror, CopiedInto, ProxyEdgeGone, NoDup, Attr;
      CopyEdges(source, proxy, targets);
      ProxyEdgeGoes(g, State(), source, proxy);
      var _ := DeleteEdge(source, proxy);
    }

    /** Does nothing unless the graph has the edge. */
    method DeleteProxyEdge(source: Id, proxy: Id)
      requires Valid()
      modifies nodeMap.Values
      ensures Valid() && nodeMap == old(nodeMap)
      ensures if GraphState.HasEdge(old(State()), source, proxy)
              then ProxyEdgeGone(old(State()), State(), source, proxy)
              else State() == old(State())
    {
      if HasEdge(source, proxy) {
        ReplaceProxyEdge(source, proxy);
      }
    }

    /** Replaces edges of the colour until none is left. It ends when these edges alone make
        no cycle of more than one node. */
    method DeleteProxyEdges(color: string) returns (ghost orders: seq<seq<Id>>)
      requires Valid() && Acyclic(Loopless(ColorEdges(State(), color)))
      modifies nodeMap.Values
      ensures Valid() && nodeMap == old(nodeMap)
      ensures RanTo(old(State()), State(), color, orders)
      ensures Collapsing(old(State()), State(), color)
      ensures ColorEdges(State(), color) == {}
    {
      hide State, Mirror, Collapsing, ColorEdges, Load, Acyclic, AllNodesOnce, PassedTo, RanTo;
      ghost var g0 := State();
      CollapsingStart(g0, color);
      RanNot(g0, color);
      orders := [];
      var removed := 1;
      while removed > 0
        invariant Valid() && nodeMap == old(nodeMap) && removed >= 0
        invariant Collapsing(g0, State(), color) && RanTo(g0, State(), color, orders)
        invariant removed == 0 ==> ColorEdges(State(), color) == {}
        decreases Load(g0, State(), color), removed
      {
        ghost var g, order := State(), [];
        removed, order := ReplaceProxyEdgesOnce(color);
        WholePass(g0, g, State(), color, order);
        RanMore(g0, g, State(), color, orders, order);
        orders := orders + [order];
      }
    }

    /** One pass of DeleteProxyEdges, visiting the nodes in whatever order the map yields
        them. */
    method ReplaceProxyEdgesOnce(color: string) returns (removed: nat, ghost order: seq<Id>)
      requires Valid()
      modifies nodeMap.Values
      ensures Valid() && nodeMap == old(nodeMap)
      ensures AllNodesOnce(old(State()), order) && PassedTo(old(State()), State(), color, order)
      ensures removed == 0 <==> ColorEdges(old(State()), color) == {}
      ensures removed == 0 ==> State() == old(State())
    {
      hide Mirror, HasColor, ColorEdges, PassedTo, SweptTo, NoneAt, NoDup;
      ghost var g := State();
      removed, order := 0, [];
      NothingSwept(g, color, "");
      NoDupEmpty();
      var rest := nodeMap.Keys;
      while rest != {}
        invariant rest <= nodeMap.Keys
        invariant Valid() && nodeMap == old(nodeMap)
        invariant NoDup(order) && forall a :: a in order <==> a in nodeMap && a !in rest
        invariant PassedTo(g, State(), color, order)
        invariant removed == 0 <==> NoneAt(g, color, order)
        invariant removed == 0 ==> State() == g
        decreases rest
      {
        var src :| src in rest;
        rest := rest - {src};
        ghost var h := State();
        var n := ReplaceProxyEdgesOf(src, color);
        PassedMore(g, h, State(), color, order, src);
        NoneAtMore(g, color, order, src);
        NoDupAppend(order, src);
        order := order + [src];
        removed := removed + n;
      }
      AllVisited(g, color, order);
    }

    /** One node's share of a pass: each target it had when the pass came to it is looked
        at once. */
    method ReplaceProxyEdgesOf(src: Id, color: string) returns (removed: nat)
      requires Valid() && src in State()
      modifies nodeMap.Values
      ensures Valid() && nodeMap == old(nodeMap)
      ensures SweptTo(old(State()), State(), color, src, old(State())[src].targets)
      ensures removed == 0 <==> NoneAt(old(State()), color, [src])
      ensures removed == 0 ==> State() == old(State())
    {
      hide State, Valid, Mirror, HasColor, SweptTo, NoneOf, NoneAt, ProxyEdgeGone;
      ghost var g := State();
      NothingSwept(g, color, src);
      NoneListed(g, color, src);
      removed := 0;
      var targets := GetTargets(src);
      assert targets[..0] == [];
      for i := 0 to |targets|
        invariant Valid() && nodeMap == old(nodeMap)
        invariant SweptTo(g, State(), color, src, targets[..i])
        invariant removed == 0 <==> NoneOf(g, color, src, targets[..i])
        invariant removed == 0 ==> State() == g
      {
        var t := targets[i];
        ghost var h := State();
        if EdgeHasColor(src, t, color) {
          ColoredEnds(h, color, src, t);
          ReplaceProxyEdge(src, t);
          removed := removed + 1;
        }
        assert targets[..i + 1] == targets[..i] + [t];
        SweptMore(g, h, State(), color, src, targets[..i], t);
        NoneOfMore(g, color, src, targets[..i], t);
      }
      assert targets[..|targets|] == targets;
    }

    ghost predicate Named()
      reads this, nodeMap.Values
    {
      forall k :: k in nodeMap ==> nodeMap[k].id == k
    }

    /** Takes the source id out of the given nodes. */
    method DropSource(children: set<Id>, id: Id)
      requires Named() && children <= nodeMap.Keys
      modifies nodeMap.Values
      ensures nodeMap == old(nodeMap) && State() == WithoutSource(old(State()), children, id)
    {
      ghost var g := State();
      var rest := children;
      while rest != {}
        invariant rest <= children && nodeMap == old(nodeMap)
        invariant forall k :: k in nodeMap ==>
                                nodeMap[k].View() == if k in children - rest then NoSource(g[k], id) else g[k]
      {
        var child :| child in rest;
        nodeMap[child].sources := nodeMap[child].sources - {id};
        rest := rest - {child};
      }
    }

    /** Takes the target id out of both records the given nodes keep of it. */
    method DropTarget(parents: set<Id>, id: Id)
      requires Named() && parents <= nodeMap.Keys
      modifies nodeMap.Values
      ensures nodeMap == old(nodeMap) && State() == WithoutTarget(old(State()), parents, id)
    {
      hide Remove;
      ghost var g := State();
      var rest := parents;
      while rest != {}
        invariant rest <= parents && nodeMap == old(nodeMap)
        invariant forall k :: k in nodeMap ==>
                                nodeMap[k].View() == if k in parents - rest then NoTarget(g[k], id) else g[k]
      {
        var parent :| parent in rest;
        nodeMap[parent].edgeAttributes := nodeMap[parent].edgeAttributes - {id};
        nodeMap[parent].targets := Remove(nodeMap[parent].targets, id);
        rest := rest - {parent};
      }
    }

    method DeleteNode(id: Id) returns (ok: bool)
      requires Valid()
      modifies this, nodeMap.Values
      ensures Valid() && nodeMap.Values <= old(nodeMap.Values)
      ensures ok <==> id in old(State())
      ensures State() == WithoutNode(old(State()), id)
    {
      hide Mirror, WithoutNode, WithoutSource, WithoutTarget;
      ghost var g := State();
      WithoutNodeKeeps(g, id);
      ok := id in nodeMap;
      if ok {
        EndsAreNodes(g, id);
        DropSource(nodeMap[id].edgeAttributes.Keys, id);
        ghost var h := State();
        ParentsAfter(g, id);
        DropTarget(nodeMap[id].sources, id);
        ghost var k := State();
        nodeMap := nodeMap - {id};
        assert State() == k - {id};
        NodeTakenOut(g, id);
      } else {
        NoNodeToRemove(g, id);
      }
    }

    /** Connects every source of the node to every target of it, then removes the node. */
    method DeleteProxyNode(id: Id)
      requires Valid()
      modifies this, nodeMap.Values
      ensures Valid() && nodeMap.Values <= old(nodeMap.Values)
      ensures if id in old(State()) then ProxyNodeGone(old(State()), State(), id)
              else State() == old(State())
    {
      if HasNode(id) {
        hide State, Valid, Mirror, CopiedInto, ProxyNodeGone, NodesGone, WithoutNode;
        ghost var g := State();
        ConnectAround(id);
        ghost var h := State();
        var _ := DeleteNode(id);
        WithoutNodeGone(h, id);
        ProxyNodeGoes(g, h, State(), id);
      }
    }

    method ConnectAround(id: Id)
      requires Valid() && id in State()
      modifies nodeMap.Values
      ensures Valid() && nodeMap == old(nodeMap)
      ensures CopiedInto(old(State()), State(), old(State())[id].sources, id, old(State())[id].targets)
    {
      hide State, Valid, Mirror, CopiedInto, NoDup, Attr, Elems;
      ghost var g := State();
      TargetsAreEdges(g, id);
      var sources := GetSources(id);
      var targets := GetTargets(id);
      CopiedFromNone(g, sources, id, targets);
      for i := 0 to |sources|
        invariant Valid() && nodeMap == old(nodeMap)
        invariant CopiedInto(g, State(), Elems(sources[..i]), id, targets)
      {
        ghost var h := State();
        AnotherSource(g, h, sources, i, id, targets);
        CopyEdges(sources[i], id, targets);
        CopiedSource(g, h, State(), Elems(sources[..i]), sources[i], id, targets);
      }
      AllSources(g, sources, id);
    }

    /** Removes everything below the root. Needs that no cycle is below it. */
    method CutSubgraph(root: Id)
      requires Valid() && AcyclicBelow(EdgesOf(State()), root)
      modifies this, nodeMap.Values
      ensures Valid() && nodeMap.Values <= old(nodeMap.Values)
      ensures NodesGone(old(State()), State(), Below(old(State()), root))
      decreases Rank(EdgesOf(State()), State().Keys, root)
    {
      hide State, Valid, Mirror, AcyclicBelow, EdgesOf, NodesGone, WithoutNode, Below, BelowAny, Rank;
      ghost var g := State();
      var targets := GetTargets(root);
      CutNothing(g, targets);
      for i := 0 to |targets|
        invariant Valid() && nodeMap.Values <= old(nodeMap.Values)
        invariant NodesGone(g, State(), BelowAny(g, targets[..i]))
      {
        var target := targets[i];
        ghost var h := State();
        CutReady(g, h, root, targets, i);
        CutSubgraph(target);
        ghost var k := State();
        var _ := DeleteNode(target);
        CutDone(g, h, k, targets, i);
      }
      CutAll(g, root, targets);
    }
  }

  method Listed(ids: set<Id>) returns (list: seq<Id>)
    ensures NoDup(list) && |list| == |ids| && forall id :: id in list <==> id in ids
  {
    list := [];
    var rest := ids;
    while rest != {}
      invariant rest <= ids && |list| + |rest| == |ids|
      invariant NoDup(list)
      invariant forall id :: id in list <==> id in ids - rest
    {
      var id :| id in rest;
      NoDupAppend(list, id);
      list := list + [id];
      rest := rest - {id};
    }
  }
}
