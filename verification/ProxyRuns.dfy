/** The passes in which edges of one colour are replaced. From a graph whose coloured edges
    make no cycle of more than one node every run of passes ends; from another one a run
    can go on for ever. */
module ProxyRuns {
  import opened Wrappers
  import opened Digraph
  import opened GraphState
  import opened ProxyCollapse
  import opened ProxyState

  /** One look at a target: an edge of the colour gives way to copies. */
  ghost predicate Replaced(g: GState, k: GState, color: string, s: Id, t: Id) {
    if HasColor(g, color, s, t) then Mirror(k) && ProxyEdgeGone(g, k, s, t) else k == g
  }

  /** One look at each of the targets ts of s, which were listed beforehand. */
  ghost predicate SweptTo(g: GState, k: GState, color: string, s: Id, ts: seq<Id>)
    decreases |ts|
  {
    if ts == [] then k == g
    else
      var n := |ts| - 1;
      exists h :: SweptTo(g, h, color, s, ts[..n]) && Replaced(h, k, color, s, ts[n])
  }

  /** The nodes of order are visited, each with the targets it has by then. */
  ghost predicate PassedTo(g: GState, k: GState, color: string, order: seq<Id>)
    decreases |order|
  {
    if order == [] then k == g
    else
      var n := |order| - 1;
      exists h: GState :: PassedTo(g, h, color, order[..n]) && order[n] in h &&
        SweptTo(h, k, color, order[n], h[order[n]].targets)
  }

  /** A run of passes, each over all nodes in an order of its own. */
  ghost predicate RanTo(g: GState, k: GState, color: string, orders: seq<seq<Id>>)
    decreases |orders|
  {
    if orders == [] then k == g
    else
      var n := |orders| - 1;
      exists h :: RanTo(g, h, color, orders[..n]) && AllNodesOnce(h, orders[n]) && PassedTo(h, k, color, orders[n])
  }

  lemma RanMore(g: GState, h: GState, k: GState, color: string, orders: seq<seq<Id>>, order: seq<Id>)
    requires RanTo(g, h, color, orders) && AllNodesOnce(h, order) && PassedTo(h, k, color, order)
    ensures RanTo(g, k, color, orders + [order])
  {
    assert (orders + [order])[..|orders|] == orders;
  }

  lemma RanNot(g: GState, color: string)
    ensures RanTo(g, g, color, [])
  {
  }

  lemma SweptMore(g: GState, h: GState, k: GState, color: string, s: Id, ts: seq<Id>, t: Id)
    requires SweptTo(g, h, color, s, ts) && Replaced(h, k, color, s, t)
    ensures SweptTo(g, k, color, s, ts + [t])
  {
    assert (ts + [t])[..|ts|] == ts;
  }

  lemma PassedMore(g: GState, h: GState, k: GState, color: string, order: seq<Id>, s: Id)
    requires PassedTo(g, h, color, order) && s in h && SweptTo(h, k, color, s, h[s].targets)
    ensures PassedTo(g, k, color, order + [s])
  {
    assert (order + [s])[..|order|] == order;
  }

  /*** What passes keep ***/

  /** Nothing was there to replace, or the load drops. */
  ghost predicate Progress(g0: GState, g: GState, k: GState, color: string, idle: bool) {
    if idle then k == g else Acyclic(Loopless(ColorEdges(g0, color))) ==> Load(g0, k, color) < Load(g0, g, color)
  }

  lemma ProgressStep(g0: GState, g: GState, h: GState, k: GState, color: string, idle: bool, still: bool)
    requires Progress(g0, g, h, color, idle) && Progress(g0, h, k, color, still)
    ensures Progress(g0, g, k, color, idle && still)
  {
  }

  ghost predicate NoneOf(g: GState, color: string, s: Id, ts: seq<Id>) {
    forall t :: t in ts ==> !HasColor(g, color, s, t)
  }

  lemma {:induction false} SweepKeeps(g0: GState, g: GState, k: GState, color: string, s: Id, ts: seq<Id>)
    requires Mirror(g) && Collapsing(g0, g, color) && SweptTo(g, k, color, s, ts)
    ensures Mirror(k) && Collapsing(g0, k, color)
    ensures Progress(g0, g, k, color, NoneOf(g, color, s, ts))
    decreases |ts|
  {
    hide *;
    if ts == [] {
      NothingSwept(g, color, s);
      SweptNothing(g, k, color, s);
      IsIdle(g0, g, color);
    } else {
      var n := |ts| - 1;
      assert ts == ts[..n] + [ts[n]];
      var h := SweptBefore(g, k, color, s, ts);
      SweepKeeps(g0, g, h, color, s, ts[..n]);
      ReplacedKeeps(g0, h, k, color, s, ts[n]);
      NoneOfMore(g, color, s, ts[..n], ts[n]);
      if NoneOf(g, color, s, ts[..n]) {
        IdleIs(g0, g, h, color);
      }
      ProgressStep(g0, g, h, k, color, NoneOf(g, color, s, ts[..n]), !HasColor(h, color, s, ts[n]));
    }
  }

  lemma SweptNothing(g: GState, k: GState, color: string, s: Id)
    requires SweptTo(g, k, color, s, [])
    ensures k == g
  {
  }

  lemma SweptBefore(g: GState, k: GState, color: string, s: Id, ts: seq<Id>) returns (h: GState)
    requires SweptTo(g, k, color, s, ts) && ts != []
    ensures SweptTo(g, h, color, s, ts[..|ts| - 1]) && Replaced(h, k, color, s, ts[|ts| - 1])
  {
    hide Replaced;
    h :| SweptTo(g, h, color, s, ts[..|ts| - 1]) && Replaced(h, k, color, s, ts[|ts| - 1]);
  }

  lemma IsIdle(g0: GState, g: GState, color: string)
    ensures Progress(g0, g, g, color, true)
  {
  }

  lemma IdleIs(g0: GState, g: GState, k: GState, color: string)
    requires Progress(g0, g, k, color, true)
    ensures k == g
  {
  }

  lemma ReplacedKeeps(g0: GState, g: GState, k: GState, color: string, s: Id, t: Id)
    requires Mirror(g) && Collapsing(g0, g, color) && Replaced(g, k, color, s, t)
    ensures Mirror(k) && Collapsing(g0, k, color) && Progress(g0, g, k, color, !HasColor(g, color, s, t))
  {
    hide Mirror, Collapsing, HasColor, ProxyEdgeGone, Load, Acyclic;
    if HasColor(g, color, s, t) {
      CollapsingStep(g0, g, k, color, s, t);
    }
  }

  ghost predicate NoneAt(g: GState, color: string, order: seq<Id>) {
    forall s, t :: s in order ==> !HasColor(g, color, s, t)
  }

  lemma NothingSwept(g: GState, color: string, s: Id)
    ensures SweptTo(g, g, color, s, []) && NoneOf(g, color, s, [])
    ensures PassedTo(g, g, color, []) && NoneAt(g, color, [])
  {
  }

  lemma NoneOfMore(g: GState, color: string, s: Id, ts: seq<Id>, t: Id)
    ensures NoneOf(g, color, s, ts + [t]) <==> NoneOf(g, color, s, ts) && !HasColor(g, color, s, t)
  {
    hide HasColor;
  }

  lemma NoneAtMore(g: GState, color: string, order: seq<Id>, s: Id)
    ensures NoneAt(g, color, order + [s]) <==> NoneAt(g, color, order) && NoneAt(g, color, [s])
  {
    hide HasColor;
  }

  lemma NoneListed(g: GState, color: string, s: Id)
    requires Mirror(g) && s in g
    ensures NoneOf(g, color, s, g[s].targets) <==> NoneAt(g, color, [s])
  {
    TargetsCoverColor(g, color, s);
  }

  lemma {:induction false} PassKeeps(g0: GState, g: GState, k: GState, color: string, order: seq<Id>)
    requires Mirror(g) && Collapsing(g0, g, color) && PassedTo(g, k, color, order)
    ensures Mirror(k) && Collapsing(g0, k, color)
    ensures Progress(g0, g, k, color, NoneAt(g, color, order))
    decreases |order|
  {
    hide *;
    if order == [] {
      NothingSwept(g, color, "");
      PassedNothing(g, k, color);
      IsIdle(g0, g, color);
    } else {
      var n := |order| - 1;
      var s := order[n];
      assert order == order[..n] + [s];
      var h := PassedBefore(g, k, color, order);
      PassKeeps(g0, g, h, color, order[..n]);
      SweepKeeps(g0, h, k, color, s, h[s].targets);
      NoneListed(h, color, s);
      NoneAtMore(g, color, order[..n], s);
      if NoneAt(g, color, order[..n]) {
        IdleIs(g0, g, h, color);
      }
      ProgressStep(g0, g, h, k, color, NoneAt(g, color, order[..n]), NoneAt(h, color, [s]));
    }
  }

  lemma PassedNothing(g: GState, k: GState, color: string)
    requires PassedTo(g, k, color, [])
    ensures k == g
  {
  }

  lemma PassedBefore(g: GState, k: GState, color: string, order: seq<Id>) returns (h: GState)
    requires PassedTo(g, k, color, order) && order != []
    ensures PassedTo(g, h, color, order[..|order| - 1])
    ensures order[|order| - 1] in h && SweptTo(h, k, color, order[|order| - 1], h[order[|order| - 1]].targets)
  {
    hide SweptTo;
    var n := |order| - 1;
    h :| PassedTo(g, h, color, order[..n]) && order[n] in h && SweptTo(h, k, color, order[n], h[order[n]].targets);
  }

  /** A pass over all nodes changes nothing when no edge of the colour is left, and
      otherwise makes the coloured edges lighter. */
  lemma WholePass(g0: GState, g: GState, k: GState, color: string, order: seq<Id>)
    requires Mirror(g) && Collapsing(g0, g, color) && PassedTo(g, k, color, order) && AllNodesOnce(g, order)
    ensures Mirror(k) && Collapsing(g0, k, color)
    ensures Progress(g0, g, k, color, ColorEdges(g, color) == {})
  {
    PassKeeps(g0, g, k, color, order);
    AllVisited(g, color, order);
  }

  lemma AllVisited(g: GState, color: string, order: seq<Id>)
    requires AllNodesOnce(g, order)
    ensures NoneAt(g, color, order) <==> ColorEdges(g, color) == {}
  {
    if NoneAt(g, color, order) {
      NoneColored(g, color);
    }
    if ColorEdges(g, color) == {} {
      forall s, t | s in order
        ensures !HasColor(g, color, s, t)
      {
        assert (s, t) !in ColorEdges(g, color);
      }
    }
  }

  /*** Whether runs end ***/

  /** Some run makes at least n passes that each find an edge to replace. */
  ghost predicate CanPass(g: GState, color: string, n: nat)
    decreases n
  {
    n > 0 ==> exists k :: OnePass(g, k, color) && CanPass(k, color, n - 1)
  }

  ghost predicate OnePass(g: GState, k: GState, color: string) {
    ColorEdges(g, color) != {} && exists order :: AllNodesOnce(g, order) && PassedTo(g, k, color, order)
  }

  lemma OnePassProgress(g0: GState, g: GState, k: GState, color: string)
    requires OnePass(g, k, color) && Progress(g0, g, k, color, ColorEdges(g, color) == {})
    requires Acyclic(Loopless(ColorEdges(g0, color)))
    ensures Load(g0, k, color) < Load(g0, g, color)
  {
    hide Acyclic, Load;
  }

  lemma {:induction false} RunsEnd(g0: GState, g: GState, color: string, n: nat)
    requires Mirror(g) && Collapsing(g0, g, color) && Acyclic(Loopless(ColorEdges(g0, color)))
    requires CanPass(g, color, n)
    ensures n <= Load(g0, g, color)
    decreases n
  {
    hide *;
    if n > 0 {
      var k, order := FirstPass(g, color, n);
      WholePass(g0, g, k, color, order);
      OnePassProgress(g0, g, k, color);
      RunsEnd(g0, k, color, n - 1);
    }
  }

  lemma FirstPass(g: GState, color: string, n: nat) returns (k: GState, order: seq<Id>)
    requires CanPass(g, color, n) && n > 0
    ensures OnePass(g, k, color) && CanPass(k, color, n - 1)
    ensures AllNodesOnce(g, order) && PassedTo(g, k, color, order)
  {
    hide AllNodesOnce, PassedTo;
    k :| OnePass(g, k, color) && CanPass(k, color, n - 1);
    order :| AllNodesOnce(g, order) && PassedTo(g, k, color, order);
  }

  /*** A run that never ends ***/

  const RED: Attributes := map["color" := Quoted("red")]

  type Lists = map<Id, seq<Id>>

  ghost predicate Proper(L: Lists) {
    forall a :: a in L ==> NoDup(L[a]) && forall t :: t in L[a] ==> t in L
  }

  /** The graph with these target lists, all edges red. */
  ghost function RedGraph(L: Lists): GState {
    map a | a in L :: NodeRec(0, set s | s in L && a in L[s], map t | t in Elems(L[a]) :: RED, L[a])
  }

  lemma RedAttr(L: Lists)
    ensures forall a, x :: Attr(RedGraph(L), a, x) == if a in L && x in L[a] then Some(RED) else None
    ensures forall a, x :: HasColor(RedGraph(L), "red", a, x) <==> a in L && x in L[a]
  {
  }

  lemma RedIsMirror(L: Lists)
    requires Proper(L)
    ensures Mirror(RedGraph(L))
  {
    hide NoDup;
    var g := RedGraph(L);
    forall a | a in g
      ensures ListsItsEdges(g[a])
    {
      assert g[a].targets == L[a];
    }
  }

  /** The target list own after p has given way to the targets of p. */
  ghost function Moved(own: seq<Id>, ofP: seq<Id>, p: Id): seq<Id> {
    Remove(own + Unknown(ofP, Elems(own)), p)
  }

  lemma NoDupConcat(a: seq<Id>, b: seq<Id>)
    requires NoDup(a) && NoDup(b) && forall x :: x in b ==> x !in a
    ensures NoDup(a + b)
  {
    forall i, j | 0 <= i < j < |a + b|
      ensures (a + b)[i] != (a + b)[j]
    {
      if j >= |a| {
        assert (a + b)[j] == b[j - |a|] && b[j - |a|] in b;
      }
    }
  }

  lemma MovedFacts(own: seq<Id>, ofP: seq<Id>, p: Id)
    requires NoDup(own) && NoDup(ofP)
    ensures NoDup(Moved(own, ofP, p))
    ensures forall x :: x in Moved(own, ofP, p) <==> x != p && (x in own || x in ofP)
  {
    NoDupConcat(own, Unknown(ofP, Elems(own)));
  }

  lemma RedReplaced(L: Lists, s: Id, p: Id)
    requires Proper(L) && s in L && p in L[s]
    ensures p in L
    ensures var L2 := L[s := Moved(L[s], L[p], p)];
            Proper(L2) && Replaced(RedGraph(L), RedGraph(L2), "red", s, p)
  {
    hide *;
    ProperMoved(L, s, p);
    var L2 := L[s := Moved(L[s], L[p], p)];
    RedIsMirror(L2);
    RedAttr(L);
    RedMoves(L, s, p);
    ItIsReplaced(RedGraph(L), RedGraph(L2), s, p);
  }

  lemma ItIsReplaced(g: GState, k: GState, s: Id, p: Id)
    requires Mirror(k) && s in g && p in g && SameNodes(g, k) && AttrsMoved(g, k, s, p) && ListsMoved(g, k, s, p)
    requires HasColor(g, "red", s, p)
    ensures Replaced(g, k, "red", s, p)
  {
    hide Mirror, HasColor, AttrsMoved, ListsMoved, SameNodes;
  }

  lemma ProperMoved(L: Lists, s: Id, p: Id)
    requires Proper(L) && s in L && p in L[s]
    ensures p in L && Proper(L[s := Moved(L[s], L[p], p)])
  {
    hide NoDup, Moved;
    MovedFacts(L[s], L[p], p);
  }

  lemma RedMoves(L: Lists, s: Id, p: Id)
    requires Proper(L) && s in L && p in L[s] && p in L
    ensures var g, k := RedGraph(L), RedGraph(L[s := Moved(L[s], L[p], p)]);
            s in g && p in g && SameNodes(g, k) && AttrsMoved(g, k, s, p) && ListsMoved(g, k, s, p)
  {
    hide *;
    RedTargets(L);
    RedAttrsMoved(L, s, p);
    RedLists(L, s, p);
  }

  lemma RedAttrsMoved(L: Lists, s: Id, p: Id)
    requires Proper(L) && s in L && p in L
    ensures AttrsMoved(RedGraph(L), RedGraph(L[s := Moved(L[s], L[p], p)]), s, p)
  {
    var L2 := L[s := Moved(L[s], L[p], p)];
    var g, k := RedGraph(L), RedGraph(L2);
    MovedFacts(L[s], L[p], p);
    RedAttr(L);
    RedAttr(L2);
    hide Attr, HasColor, NoDup, Moved, RedGraph;
    forall a, x
      ensures Attr(k, a, x) == if a != s then Attr(g, a, x)
                               else if x == p then None
                               else if Attr(g, p, x).Some? then Attr(g, p, x) else Attr(g, s, x)
    {
      assert Attr(k, a, x) == if a in L2 && x in L2[a] then Some(RED) else None;
      assert Attr(g, a, x) == if a in L && x in L[a] then Some(RED) else None;
      assert Attr(g, p, x) == if p in L && x in L[p] then Some(RED) else None;
    }
  }

  lemma RedLists(L: Lists, s: Id, p: Id)
    requires s in L && p in L
    ensures var g, k := RedGraph(L), RedGraph(L[s := Moved(L[s], L[p], p)]);
            SameNodes(g, k) && ListsMoved(g, k, s, p)
  {
    assert RedGraph(L)[s].edgeAttributes.Keys == Elems(L[s]);
    hide Elems, Remove, Unknown;
  }

  /** A node with two targets is swept. */
  lemma TwoReplaced(L: Lists, s: Id, x: Id, y: Id, one: seq<Id>, two: seq<Id>)
    requires Proper(L) && s in L && L[s] == [x, y] && x in L && y in L
    requires one == Moved([x, y], L[x], x) && y in one
    requires two == Moved(one, if y == s then one else L[y], y)
    ensures Proper(L[s := two]) && SweptTo(RedGraph(L), RedGraph(L[s := two]), "red", s, [x, y])
  {
    hide *;
    RedReplaced(L, s, x);
    var L1 := L[s := one];
    RedReplaced(L1, s, y);
    assert L1[s := two] == L[s := two];
    NothingSwept(RedGraph(L), "red", s);
    SweptMore(RedGraph(L), RedGraph(L), RedGraph(L1), "red", s, [], x);
    SweptMore(RedGraph(L), RedGraph(L1), RedGraph(L[s := two]), "red", s, [x], y);
    assert [] + [x] == [x] && [x] + [y] == [x, y];
  }

  lemma MovedKnown(u: seq<Id>, ofP: seq<Id>, p: Id)
    requires forall x :: x in ofP ==> x in [p] + u
    ensures Moved([p] + u, ofP, p) == u
  {
    AllKnown(ofP, Elems([p] + u));
    assert [p] + u + [] == [p] + u;
  }

  lemma {:induction false} AllKnown(ts: seq<Id>, known: set<Id>)
    requires forall t :: t in ts ==> t in known
    ensures Unknown(ts, known) == []
  {
    if ts != [] {
      AllKnown(ts[..|ts| - 1], known);
    }
  }

  lemma MovedNew(u: seq<Id>, ofP: seq<Id>, p: Id)
    requires forall x :: x in ofP ==> x !in [p] + u
    ensures Moved([p] + u, ofP, p) == u + ofP
  {
    NoneKnown(ofP, Elems([p] + u));
    assert [p] + u + ofP == [p] + (u + ofP);
  }

  lemma {:induction false} NoneKnown(ts: seq<Id>, known: set<Id>)
    requires forall t :: t in ts ==> t !in known
    ensures Unknown(ts, known) == ts
  {
    if ts != [] {
      NoneKnown(ts[..|ts| - 1], known);
      assert ts == ts[..|ts| - 1] + [ts[|ts| - 1]];
    }
  }

  ghost predicate Distinct(a: Id, b: Id, c: Id, d: Id) {
    a != b && a != c && a != d && b != c && b != d && c != d
  }

  ghost function Pairs(a: Id, b: Id, c: Id, d: Id): Lists {
    map[a := [a, b], b := [c, d], c := [a, b], d := [c, d]]
  }

  /** A node visited, whose two targets give way. */
  lemma PassedTwo(L0: Lists, L: Lists, s: Id, x: Id, y: Id, one: seq<Id>, two: seq<Id>, order: seq<Id>)
    requires PassedTo(RedGraph(L0), RedGraph(L), "red", order)
    requires Proper(L) && s in L && L[s] == [x, y] && x in L && y in L
    requires one == Moved([x, y], L[x], x) && y in one
    requires two == Moved(one, if y == s then one else L[y], y)
    ensures Proper(L[s := two]) && PassedTo(RedGraph(L0), RedGraph(L[s := two]), "red", order + [s])
  {
    hide *;
    TwoReplaced(L, s, x, y, one, two);
    RedTargets(L);
    PassedMore(RedGraph(L0), RedGraph(L), RedGraph(L[s := two]), "red", order, s);
  }

  lemma PairsAre(a: Id, b: Id, c: Id, d: Id)
    requires Distinct(a, b, c, d)
    ensures var L := Pairs(a, b, c, d);
            && Proper(L) && L.Keys == {a, b, c, d}
            && L[a] == [a, b] && L[b] == [c, d] && L[c] == [a, b] && L[d] == [c, d]
            && L[a := [c, d]][d := [a, b]][c := [c, d]][b := [a, b]] == Pairs(c, d, a, b)
  {
  }

  /** One pass swaps the two pairs. */
  lemma PassSwaps(a: Id, b: Id, c: Id, d: Id)
    requires Distinct(a, b, c, d)
    ensures OnePass(RedGraph(Pairs(a, b, c, d)), RedGraph(Pairs(c, d, a, b)), "red")
  {
    hide *;
    hide Distinct;
    AllDistinct(a, b, c, d);
    var L := Pairs(a, b, c, d);
    PairsAre(a, b, c, d);
    MovedHere(a, b, c, d);
    var o: seq<Id> := [];
    NothingSwept(RedGraph(L), "red", a);
    PassedTwo(L, L, a, a, b, [b], [c, d], o);
    PassedTwo(L, L[a := [c, d]], d, c, d, [d, a, b], [a, b], o + [a]);
    PassedTwo(L, L[a := [c, d]][d := [a, b]], c, a, b, [b, c, d], [c, d], o + [a] + [d]);
    PassedTwo(L, L[a := [c, d]][d := [a, b]][c := [c, d]], b, c, d, [d], [a, b], o + [a] + [d] + [c]);
    var order := o + [a] + [d] + [c] + [b];
    assert order == [a, d, c, b];
    RedTargets(L);
    ItIsAPass(L, RedGraph(Pairs(c, d, a, b)), order, a, b);
  }

  lemma AllDistinct(a: Id, b: Id, c: Id, d: Id)
    requires Distinct(a, b, c, d)
    ensures a != b && a != c && a != d && b != c && b != d && c != d
    ensures NoDup([a, d, c, b])
  {
  }

  lemma ItIsAPass(L: Lists, k: GState, order: seq<Id>, a: Id, x: Id)
    requires PassedTo(RedGraph(L), k, "red", order) && NoDup(order) && forall s :: s in order <==> s in L
    requires a in L && x in L[a]
    ensures OnePass(RedGraph(L), k, "red")
  {
    RedTargets(L);
    RedAttr(L);
    assert (a, x) in ColorEdges(RedGraph(L), "red");
    assert AllNodesOnce(RedGraph(L), order);
  }

  lemma RedTargets(L: Lists)
    ensures RedGraph(L).Keys == L.Keys && forall a :: a in L ==> RedGraph(L)[a].targets == L[a]
  {
  }

  lemma MovedHere(a: Id, b: Id, c: Id, d: Id)
    requires Distinct(a, b, c, d)
    ensures Moved([a, b], [a, b], a) == [b] && Moved([b], [c, d], b) == [c, d]
    ensures Moved([c, d], [a, b], c) == [d, a, b] && Moved([d, a, b], [d, a, b], d) == [a, b]
    ensures Moved([a, b], [c, d], a) == [b, c, d] && Moved([b, c, d], [c, d], b) == [c, d]
    ensures Moved([c, d], [c, d], c) == [d] && Moved([d], [a, b], d) == [a, b]
  {
    hide Moved;
    var none: seq<Id> := [];
    assert [a, b] == [a] + [b] && [b] == [b] + none && [c, d] == [c] + [d] && [d, a, b] == [d] + [a, b];
    assert [b, c, d] == [b] + [c, d] && [d] == [d] + none && [d] + [a, b] == [d, a, b];
    MovedKnown([b], [a, b], a);
    MovedNew(none, [c, d], b);
    MovedNew([d], [a, b], c);
    MovedKnown([a, b], [d, a, b], d);
    MovedNew([b], [c, d], a);
    MovedKnown([c, d], [c, d], b);
    MovedKnown([d], [c, d], c);
    MovedNew(none, [a, b], d);
  }

  /** On any four nodes there are red edges from which passes can go on for ever. */
  lemma {:induction false} EndlessRun(a: Id, b: Id, c: Id, d: Id, n: nat)
    requires Distinct(a, b, c, d)
    ensures Mirror(RedGraph(Pairs(a, b, c, d))) && CanPass(RedGraph(Pairs(a, b, c, d)), "red", n)
    decreases n
  {
    hide *;
    PairsAre(a, b, c, d);
    RedIsMirror(Pairs(a, b, c, d));
    if n == 0 {
      NoPass(RedGraph(Pairs(a, b, c, d)), "red");
    } else {
      PassSwaps(a, b, c, d);
      Turned(a, b, c, d);
      EndlessRun(c, d, a, b, n - 1);
      AnotherPass(RedGraph(Pairs(a, b, c, d)), RedGraph(Pairs(c, d, a, b)), "red", n);
    }
  }

  lemma Turned(a: Id, b: Id, c: Id, d: Id)
    requires Distinct(a, b, c, d)
    ensures Distinct(c, d, a, b)
  {
  }

  lemma NoPass(g: GState, color: string)
    ensures CanPass(g, color, 0)
  {
  }

  lemma AnotherPass(g: GState, k: GState, color: string, n: nat)
    requires n > 0 && OnePass(g, k, color) && CanPass(k, color, n - 1)
    ensures CanPass(g, color, n)
  {
  }
}
