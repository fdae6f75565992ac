/** The value a dependency graph holds at one moment, the updates its methods make,
    and the mirror invariant that ties the two copies of every edge together. */
module GraphState {
  import opened Wrappers
  import opened Digraph

  type Attributes = map<string, string>

  datatype NodeRec = NodeRec(
    priority: int,
    sources: set<Id>,
    edgeAttributes: map<Id, Attributes>,
    targets: seq<Id>)

  type GState = map<Id, NodeRec>

  const EMPTY_NODE := NodeRec(0, {}, map[], [])

  /** Drops the first occurrence of x. */
  function Remove(s: seq<Id>, x: Id): (r: seq<Id>)
    ensures forall y :: y != x ==> (y in r <==> y in s)
    ensures x !in s ==> r == s
    ensures NoDup(s) ==> NoDup(r) && x !in r
    ensures NoDup(s) && x in s ==> |r| == |s| - 1
  {
    if s == [] then []
    else if s[0] == x then
      assert s == [x] + s[1..];
      s[1..]
    else
      var rest := Remove(s[1..], x);
      assert s == [s[0]] + s[1..];
      assert forall y :: y in [s[0]] + rest <==> y == s[0] || y in rest;
      assert NoDup(s) ==> NoDup(s[1..]) && s[0] !in s[1..];
      [s[0]] + rest
  }

  predicate HasEdge(g: GState, s: Id, t: Id) {
    s in g && t in g[s].edgeAttributes
  }

  /** The attributes of the edge from s to t, if there is one. */
  function Attr(g: GState, s: Id, t: Id): Option<Attributes> {
    if HasEdge(g, s, t) then Some(g[s].edgeAttributes[t]) else None
  }

  predicate HasSource(g: GState, s: Id, t: Id) {
    t in g && s in g[t].sources
  }

  ghost predicate ListsItsEdges(n: NodeRec) {
    NoDup(n.targets) && forall t :: t in n.targets <==> t in n.edgeAttributes
  }

  function PriorityOf(g: GState, id: Id): int {
    if id in g then g[id].priority else 0
  }

  ghost predicate AllNodesOnce(g: GState, order: seq<Id>) {
    NoDup(order) && forall a :: a in order <==> a in g
  }

  /** Both copies of every edge agree: a node's target list has no duplicates and names
      exactly the keys of its edge attributes, and s has the edge to t exactly when t
      lists s as a source. So every edge stays inside the node map. */
  ghost predicate Mirror(g: GState) {
    && (forall s :: s in g ==> ListsItsEdges(g[s]))
    && (forall s, t :: HasEdge(g, s, t) <==> HasSource(g, s, t))
  }

  ghost function EdgesOf(g: GState): (E: Edges)
    ensures forall s, t :: (s, t) in E <==> HasEdge(g, s, t)
  {
    set s, t | s in g && t in g[s].edgeAttributes :: (s, t)
  }

  function ColorValue(a: Attributes): string {
    if "color" in a then a["color"] else ""
  }

  /** Colours are stored with quotes around them. */
  function Quoted(color: string): string {
    "\"" + color + "\""
  }

  predicate HasColor(g: GState, color: string, s: Id, t: Id) {
    HasEdge(g, s, t) && ColorValue(g[s].edgeAttributes[t]) == Quoted(color)
  }

  ghost function ColorEdges(g: GState, color: string): (E: Edges)
    ensures forall s, t :: (s, t) in E <==> HasColor(g, color, s, t)
  {
    set s, t | s in g && t in g[s].edgeAttributes && HasColor(g, color, s, t) :: (s, t)
  }

  ghost function OtherEdges(g: GState, color: string): (E: Edges)
    ensures forall s, t :: (s, t) in E <==>
              HasEdge(g, s, t) && !HasColor(g, color, s, t)
    ensures ColorEdges(g, color) + E == EdgesOf(g)
  {
    set s, t | s in g && t in g[s].edgeAttributes && !HasColor(g, color, s, t) :: (s, t)
  }

  lemma NoDupAppend(s: seq<Id>, x: Id)
    requires NoDup(s) && x !in s
    ensures NoDup(s + [x])
  {
  }

  /*** The updates ***/

  function WithNode(g: GState, id: Id): GState {
    if id in g then g else g[id := EMPTY_NODE]
  }

  function WithPriority(g: GState, id: Id, priority: int): GState {
    if id in g then g[id := g[id].(priority := priority)] else g
  }

  function WithEdge(g: GState, s: Id, t: Id): GState
    requires s in g && t in g
  {
    if t in g[s].edgeAttributes then g
    else
      var h := g[s := g[s].(targets := g[s].targets + [t],
                            edgeAttributes := g[s].edgeAttributes[t := map[]])];
      h[t := h[t].(sources := h[t].sources + {s})]
  }

  function WithEdgeAttributes(g: GState, s: Id, t: Id, a: Attributes): GState {
    if HasEdge(g, s, t)
    then g[s := g[s].(edgeAttributes := g[s].edgeAttributes[t := a])]
    else g
  }

  function WithEdgeProperty(g: GState, s: Id, t: Id, key: string, value: string): GState {
    if t in g && HasEdge(g, s, t)
    then WithEdgeAttributes(g, s, t, g[s].edgeAttributes[t][key := value])
    else g
  }

  function WithoutEdge(g: GState, s: Id, t: Id): GState
    requires s in g && t in g
  {
    var h := g[s := g[s].(targets := Remove(g[s].targets, t),
                          edgeAttributes := g[s].edgeAttributes - {t})];
    h[t := h[t].(sources := h[t].sources - {s})]
  }

  /** One node of WithoutEdge(g, s, t). */
  function NodeWithoutEdge(r: NodeRec, isSource: bool, isTarget: bool, s: Id, t: Id): NodeRec {
    NodeRec(r.priority,
            if isTarget then r.sources - {s} else r.sources,
            if isSource then r.edgeAttributes - {t} else r.edgeAttributes,
            if isSource then Remove(r.targets, t) else r.targets)
  }

  lemma WithoutEdgeIs(g: GState, h: GState, s: Id, t: Id)
    requires s in g && t in g && h.Keys == g.Keys
    requires forall k :: k in g ==> h[k] == NodeWithoutEdge(g[k], k == s, k == t, s, t)
    ensures h == WithoutEdge(g, s, t)
  {
    hide Remove;
    assert forall k :: k in g ==> h[k] == WithoutEdge(g, s, t)[k];
  }

  function WithoutNode(g: GState, id: Id): GState {
    map k | k in g && k != id ::
      g[k].(sources := g[k].sources - {id},
            edgeAttributes := g[k].edgeAttributes - {id},
            targets := Remove(g[k].targets, id))
  }

  /*** What the updates keep and what they change ***/

  lemma SameEdges(E: Edges, F: Edges)
    requires forall s, t :: (s, t) in E <==> (s, t) in F
    ensures E == F
  {
    forall e
      ensures e in E <==> e in F
    {
      assert e == (e.0, e.1);
    }
  }

  lemma WithNodeKeeps(g: GState, id: Id)
    requires Mirror(g)
    ensures Mirror(WithNode(g, id))
    ensures EdgesOf(WithNode(g, id)) == EdgesOf(g)
  {
    hide NoDup, Remove;
    var h := WithNode(g, id);
    NoDupEmpty();
    forall x | x in h
      ensures ListsItsEdges(h[x])
    {
      if x in g {
        assert ListsItsEdges(g[x]);
      }
    }
    forall a, b
      ensures HasEdge(h, a, b) <==> HasEdge(g, a, b)
      ensures HasSource(h, a, b) <==> HasEdge(g, a, b)
    {
      assert HasEdge(g, a, b) <==> HasSource(g, a, b);
    }
    SameEdges(EdgesOf(h), EdgesOf(g));
  }

  lemma NoDupEmpty()
    ensures NoDup([])
  {
  }

  lemma WithPriorityKeeps(g: GState, id: Id, priority: int)
    requires Mirror(g)
    ensures Mirror(WithPriority(g, id, priority))
    ensures EdgesOf(WithPriority(g, id, priority)) == EdgesOf(g)
  {
    hide NoDup, Remove;
    var h := WithPriority(g, id, priority);
    forall x | x in h
      ensures ListsItsEdges(h[x])
    {
      if x in g {
        assert ListsItsEdges(g[x]);
      }
    }
    forall a, b
      ensures HasEdge(h, a, b) <==> HasEdge(g, a, b)
      ensures HasSource(h, a, b) <==> HasEdge(g, a, b)
    {
      assert HasEdge(g, a, b) <==> HasSource(g, a, b);
    }
    SameEdges(EdgesOf(h), EdgesOf(g));
  }

  lemma WithEdgeAttrs(g: GState, s: Id, t: Id)
    requires s in g && t in g
    ensures forall a, x :: Attr(WithEdge(g, s, t), a, x) ==
                           if a == s && x == t && Attr(g, s, t).None? then Some(map[]) else Attr(g, a, x)
  {
  }

  lemma WithEdgeKeeps(g: GState, s: Id, t: Id)
    requires Mirror(g) && s in g && t in g
    ensures Mirror(WithEdge(g, s, t))
    ensures EdgesOf(WithEdge(g, s, t)) == EdgesOf(g) + {(s, t)}
    ensures forall a, x :: HasEdge(g, a, x) ==> Attr(WithEdge(g, s, t), a, x) == Attr(g, a, x)
  {
    hide NoDup, Remove;
    WithEdgeAttrs(g, s, t);
    var h := WithEdge(g, s, t);
    assert ListsItsEdges(g[s]);
    if t !in g[s].edgeAttributes {
      NoDupAppend(g[s].targets, t);
    }
    forall x | x in h
      ensures ListsItsEdges(h[x])
    {
      if x in g {
        assert ListsItsEdges(g[x]);
      }
    }
    forall a, b
      ensures HasEdge(h, a, b) <==> HasEdge(g, a, b) || (a == s && b == t)
      ensures HasSource(h, a, b) <==> HasEdge(g, a, b) || (a == s && b == t)
    {
      assert HasEdge(g, a, b) <==> HasSource(g, a, b);
    }
    SameEdges(EdgesOf(h), EdgesOf(g) + {(s, t)});
  }

  lemma WithEdgeAttributesKeeps(g: GState, s: Id, t: Id, a: Attributes)
    requires Mirror(g)
    ensures Mirror(WithEdgeAttributes(g, s, t, a))
    ensures EdgesOf(WithEdgeAttributes(g, s, t, a)) == EdgesOf(g)
  {
    hide NoDup, Remove;
    var h := WithEdgeAttributes(g, s, t, a);
    forall x | x in h
      ensures ListsItsEdges(h[x])
    {
      if x in g {
        assert ListsItsEdges(g[x]);
      }
    }
    forall x, b
      ensures HasEdge(h, x, b) <==> HasEdge(g, x, b)
      ensures HasSource(h, x, b) <==> HasEdge(g, x, b)
    {
      assert HasEdge(g, x, b) <==> HasSource(g, x, b);
    }
    SameEdges(EdgesOf(h), EdgesOf(g));
  }

  lemma WithoutEdgeKeeps(g: GState, s: Id, t: Id)
    requires Mirror(g) && s in g && t in g
    ensures Mirror(WithoutEdge(g, s, t))
    ensures EdgesOf(WithoutEdge(g, s, t)) == EdgesOf(g) - {(s, t)}
  {
    hide NoDup, Remove;
    var h := WithoutEdge(g, s, t);
    forall x | x in h
      ensures ListsItsEdges(h[x])
    {
      if x in g {
        assert ListsItsEdges(g[x]);
      }
    }
    forall a, b
      ensures HasEdge(h, a, b) <==> HasEdge(g, a, b) && !(a == s && b == t)
      ensures HasSource(h, a, b) <==> HasEdge(g, a, b) && !(a == s && b == t)
    {
      assert HasEdge(g, a, b) <==> HasSource(g, a, b);
    }
    SameEdges(EdgesOf(h), EdgesOf(g) - {(s, t)});
  }

  lemma WithoutNodeKeeps(g: GState, id: Id)
    requires Mirror(g)
    ensures Mirror(WithoutNode(g, id))
    ensures forall a, b :: HasEdge(WithoutNode(g, id), a, b) <==>
              HasEdge(g, a, b) && a != id && b != id
  {
    hide NoDup, Remove;
    var h := WithoutNode(g, id);
    forall x | x in h
      ensures ListsItsEdges(h[x])
    {
      if x in g {
        assert ListsItsEdges(g[x]);
      }
    }
    forall a, b
      ensures HasEdge(h, a, b) <==> HasEdge(g, a, b) && a != id && b != id
      ensures HasSource(h, a, b) <==> HasEdge(g, a, b) && a != id && b != id
    {
      assert HasEdge(g, a, b) <==> HasSource(g, a, b);
    }
  }

  lemma AddThenDeleteLoop(g: GState, s: Id)
    requires s in g && s !in g[s].targets && s !in g[s].edgeAttributes && s !in g[s].sources
    ensures WithoutEdge(WithEdge(g, s, s), s, s) == g
  {
    RemoveAppended(g[s].targets, s);
    assert g[s].edgeAttributes[s := map[]] - {s} == g[s].edgeAttributes;
    assert g[s].sources + {s} - {s} == g[s].sources;
    hide Remove;
    var k := WithoutEdge(WithEdge(g, s, s), s, s);
    assert k[s] == g[s];
    assert k == g;
  }

  lemma AddThenDeleteOther(g: GState, s: Id, t: Id)
    requires s in g && t in g && s != t && t !in g[s].targets && t !in g[s].edgeAttributes && s !in g[t].sources
    ensures WithoutEdge(WithEdge(g, s, t), s, t) == g
  {
    RemoveAppended(g[s].targets, t);
    assert g[s].edgeAttributes[t := map[]] - {t} == g[s].edgeAttributes;
    assert g[t].sources + {s} - {s} == g[t].sources;
    hide Remove;
    var k := WithoutEdge(WithEdge(g, s, t), s, t);
    assert k[s] == g[s];
    assert k[t] == g[t];
    assert k == g;
  }

  /** Taking a new edge out again gives back the very same graph: target order, sources
      and attributes included. */
  lemma AddThenDeleteRestores(g: GState, s: Id, t: Id)
    requires Mirror(g) && s in g && t in g && !HasEdge(g, s, t)
    ensures WithoutEdge(WithEdge(g, s, t), s, t) == g
  {
    hide NoDup, WithEdge, WithoutEdge;
    assert ListsItsEdges(g[s]);
    assert !HasSource(g, s, t);
    if s == t {
      AddThenDeleteLoop(g, s);
    } else {
      AddThenDeleteOther(g, s, t);
    }
  }

  lemma {:induction false} RemoveAppended(s: seq<Id>, x: Id)
    requires x !in s
    ensures Remove(s + [x], x) == s
  {
    if s != [] {
      assert (s + [x])[1..] == s[1..] + [x];
      RemoveAppended(s[1..], x);
    }
  }
}
