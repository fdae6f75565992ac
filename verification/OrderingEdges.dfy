/** The declared edges of a module and the temporary edges that make its static libraries
    keep the order they are listed in. */
module OrderingEdges {
  import opened Wrappers
  import opened Digraph
  import opened GraphState
  import opened ProxyState
  import opened Graphs
  import opened Subgraph

  const PINK: Attributes := map["color" := Quoted("pink")]

  /** The edge from s to t, new or not, in the given colour. */
  function LinkColored(g: GState, s: Id, t: Id, color: string): GState
    requires s in g && t in g
  {
    WithEdgeProperty(WithEdge(g, s, t), s, t, "color", Quoted(color))
  }

  lemma LinkColoredKeeps(g: GState, s: Id, t: Id, color: string)
    requires Mirror(g) && s in g && t in g
    ensures Mirror(LinkColored(g, s, t, color))
    ensures EdgesOf(LinkColored(g, s, t, color)) == EdgesOf(g) + {(s, t)}
    ensures forall a :: a in LinkColored(g, s, t, color) <==> a in g
  {
    hide Mirror;
    WithEdgeKeeps(g, s, t);
    var h := WithEdge(g, s, t);
    assert (s, t) in EdgesOf(h);
    WithEdgeAttributesKeeps(h, s, t, h[s].edgeAttributes[t]["color" := Quoted(color)]);
  }

  lemma LinkColoredAttrs(g: GState, s: Id, t: Id, color: string)
    requires s in g && t in g
    ensures var k := LinkColored(g, s, t, color);
            && SameNodes(g, k)
            && (forall a, x :: Attr(k, a, x) ==
                               if a != s || x != t then Attr(g, a, x)
                               else if Attr(g, s, t).None? then Some(map["color" := Quoted(color)])
                               else Some(Attr(g, s, t).value["color" := Quoted(color)]))
            && (forall a :: a in g ==>
                  k[a].targets == if a == s && Attr(g, s, t).None? then g[a].targets + [t] else g[a].targets)
  {
    EdgeMade(g, s, t);
    var h := WithEdge(g, s, t);
    assert Attr(h, s, t).Some? && t in h;
    var c := Attr(h, s, t).value["color" := Quoted(color)];
    assert LinkColored(g, s, t, color) == WithEdgeAttributes(h, s, t, c);
    AttributesSet(h, s, t, c);
    hide WithEdge, WithEdgeAttributes, Attr, LinkColored;
  }

  /*** Declared edges ***/

  ghost predicate AllPresent(g: GState, main: Id, libs: seq<Id>) {
    forall lib :: lib in libs ==> main in g && lib in g
  }

  /** lib is the first of libs that cannot be linked to main. */
  ghost predicate FirstMissing(g: GState, main: Id, libs: seq<Id>, lib: Id) {
    exists i :: 0 <= i < |libs| && libs[i] == lib && !(main in g && lib in g) && AllPresent(g, main, libs[..i])
  }

  /** g with the edges from main to its libraries in the given colour. */
  ghost function Declare(g: GState, main: Id, libs: seq<Id>, color: string): (h: GState)
    requires AllPresent(g, main, libs)
    ensures h.Keys == g.Keys
  {
    if libs == [] then g
    else
      assert libs[|libs| - 1] in libs && AllPresent(g, main, libs[..|libs| - 1]);
      LinkColored(Declare(g, main, libs[..|libs| - 1], color), main, libs[|libs| - 1], color)
  }

  lemma {:induction false} DeclareKeeps(g: GState, main: Id, libs: seq<Id>, color: string)
    requires Mirror(g) && AllPresent(g, main, libs)
    ensures Mirror(Declare(g, main, libs, color))
    ensures forall a, x :: (a, x) in EdgesOf(Declare(g, main, libs, color)) <==>
              (a, x) in EdgesOf(g) || (a == main && x in libs)
  {
    hide Mirror, EdgesOf, LinkColored;
    var n := |libs| - 1;
    if n >= 0 {
      assert libs == libs[..n] + [libs[n]];
      assert libs[n] in libs && AllPresent(g, main, libs[..n]);
      DeclareKeeps(g, main, libs[..n], color);
      LinkColoredKeeps(Declare(g, main, libs[..n], color), main, libs[n], color);
    }
  }

  /** Links main to each library the graph knows, up to the first one it does not. */
  method DeclareLibs(g: Graph, main: Id, libs: seq<Id>, color: string) returns (missing: Option<Id>)
    requires g.Valid()
    modifies g, g.nodeMap.Values
    ensures g.Valid() && fresh(g.nodeMap.Values - old(g.nodeMap.Values))
    ensures missing.None? <==> AllPresent(old(g.State()), main, libs)
    ensures missing.None? ==> g.State() == Declare(old(g.State()), main, libs, color)
    ensures missing.Some? ==> FirstMissing(old(g.State()), main, libs, missing.value)
  {
    hide Graph.State, Graph.Valid, Mirror, WithEdge;
    ghost var g0 := g.State();
    for i := 0 to |libs|
      invariant g.Valid() && fresh(g.nodeMap.Values - old(g.nodeMap.Values))
      invariant AllPresent(g0, main, libs[..i])
      invariant g.State() == Declare(g0, main, libs[..i], color)
    {
      var lib := libs[i];
      if !g.HasNode(main) || !g.HasNode(lib) {
        assert lib in libs && libs[i] == lib;
        return Some(lib);
      }
      ghost var h := g.State();
      BothThere(h, main, lib);
      var _ := g.AddEdge(main, lib);
      g.SetEdgeColor(main, lib, color);
      assert libs[..i + 1][..i] == libs[..i];
      assert g.State() == LinkColored(h, main, lib, color);
    }
    assert libs[..|libs|] == libs;
    return None;
  }

  lemma BothThere(h: GState, s: Id, t: Id)
    requires s in h && t in h
    ensures WithNode(WithNode(h, s), t) == h
  {
  }

  /*** Temporary edges ***/

  function ListOf(temp: map<Id, seq<Id>>, a: Id): seq<Id> {
    if a in temp then temp[a] else []
  }

  /** k is g with the pink edges of temp added, each node's at the end of its target list
      and in the order temp lists them. */
  ghost predicate PinkAdded(g: GState, k: GState, temp: map<Id, seq<Id>>) {
    SameNodes(g, k) && PinkFresh(g, temp) && PinkAttrs(g, k, temp) && PinkLists(g, k, temp)
  }

  ghost predicate PinkFresh(g: GState, temp: map<Id, seq<Id>>) {
    && (forall a :: NoDup(ListOf(temp, a)))
    && (forall a, x :: x in ListOf(temp, a) ==> a in g && x in g && Attr(g, a, x).None?)
  }

  ghost predicate PinkAttrs(g: GState, k: GState, temp: map<Id, seq<Id>>) {
    forall a, x :: Attr(k, a, x) == if x in ListOf(temp, a) then Some(PINK) else Attr(g, a, x)
  }

  ghost predicate PinkLists(g: GState, k: GState, temp: map<Id, seq<Id>>) {
    forall a :: a in g && a in k ==> k[a].targets == g[a].targets + ListOf(temp, a)
  }

  lemma NoPink(g: GState)
    ensures PinkAdded(g, g, map[])
  {
    forall a | a in g
      ensures g[a].targets == g[a].targets + ListOf(map[], a)
    {
    }
  }

  lemma ListOfUpdate(temp: map<Id, seq<Id>>, p: Id, s: seq<Id>)
    ensures forall a :: ListOf(temp[p := s], a) == if a == p then s else ListOf(temp, a)
  {
    forall a
      ensures ListOf(temp[p := s], a) == if a == p then s else ListOf(temp, a)
    {
    }
  }

  lemma PinkNodes(g: GState, k: GState, temp: map<Id, seq<Id>>)
    requires PinkAdded(g, k, temp)
    ensures forall a :: a in k <==> a in g
  {
  }

  lemma AddPink(g: GState, k: GState, temp: map<Id, seq<Id>>, p: Id, l: Id)
    requires PinkAdded(g, k, temp) && p in k && l in k && Attr(k, p, l).None?
    ensures PinkAdded(g, LinkColored(k, p, l, "pink"), temp[p := ListOf(temp, p) + [l]])
  {
    hide Attr, LinkColored, NoDup, ListOf, PinkFresh, PinkAttrs, PinkLists;
    var k2, temp2 := LinkColored(k, p, l, "pink"), temp[p := ListOf(temp, p) + [l]];
    LinkColoredAttrs(k, p, l, "pink");
    assert SameNodes(g, k2);
    ListOfUpdate(temp, p, ListOf(temp, p) + [l]);
    PinkFreshMore(g, k, temp, temp2, p, l);
    PinkAttrsMore(g, k, k2, temp, temp2, p, l);
    PinkListsMore(g, k, k2, temp, temp2, p, l);
  }

  lemma PinkFreshMore(g: GState, k: GState, temp: map<Id, seq<Id>>, temp2: map<Id, seq<Id>>, p: Id, l: Id)
    requires SameNodes(g, k) && PinkFresh(g, temp) && PinkAttrs(g, k, temp) && p in k && l in k && Attr(k, p, l).None?
    requires forall a :: ListOf(temp2, a) == if a == p then ListOf(temp, p) + [l] else ListOf(temp, a)
    ensures PinkFresh(g, temp2)
  {
    hide Attr, ListOf;
    assert Attr(k, p, l) == if l in ListOf(temp, p) then Some(PINK) else Attr(g, p, l);
    NoDupAppend(ListOf(temp, p), l);
    hide NoDup;
  }

  lemma PinkAttrsMore(g: GState, k: GState, k2: GState, temp: map<Id, seq<Id>>, temp2: map<Id, seq<Id>>, p: Id, l: Id)
    requires PinkAttrs(g, k, temp)
    requires forall a :: ListOf(temp2, a) == if a == p then ListOf(temp, p) + [l] else ListOf(temp, a)
    requires forall a, x :: Attr(k2, a, x) == if a == p && x == l then Some(PINK) else Attr(k, a, x)
    ensures PinkAttrs(g, k2, temp2)
  {
    hide Attr, ListOf;
    forall a, x
      ensures Attr(k2, a, x) == if x in ListOf(temp2, a) then Some(PINK) else Attr(g, a, x)
    {
      assert Attr(k, a, x) == if x in ListOf(temp, a) then Some(PINK) else Attr(g, a, x);
    }
  }

  lemma PinkListsMore(g: GState, k: GState, k2: GState, temp: map<Id, seq<Id>>, temp2: map<Id, seq<Id>>, p: Id, l: Id)
    requires SameNodes(g, k) && PinkLists(g, k, temp)
    requires forall a :: ListOf(temp2, a) == if a == p then ListOf(temp, p) + [l] else ListOf(temp, a)
    requires forall a :: a in k && a in k2 ==> k2[a].targets == if a == p then k[a].targets + [l] else k[a].targets
    ensures PinkLists(g, k2, temp2)
  {
    hide ListOf;
    forall a | a in g && a in k2
      ensures k2[a].targets == g[a].targets + ListOf(temp2, a)
    {
      assert k[a].targets == g[a].targets + ListOf(temp, a);
    }
  }

  lemma RemovePink(g: GState, k: GState, temp: map<Id, seq<Id>>, p: Id, v: Id, rest: seq<Id>)
    requires Mirror(g) && PinkAdded(g, k, temp) && p in k && v in k && ListOf(temp, p) == [v] + rest
    ensures PinkAdded(g, WithoutEdge(k, p, v), temp[p := rest])
  {
    hide Attr, WithoutEdge, NoDup, ListOf, Mirror, Remove, PinkFresh, PinkAttrs, PinkLists;
    var k2, temp2 := WithoutEdge(k, p, v), temp[p := rest];
    PinkHead(g, temp, p, v, rest);
    WithoutEdgeAttrs(k, p, v);
    WithoutEdgeLists(k, p, v);
    WithoutEdgeNodes(k, p, v);
    assert SameNodes(g, k2);
    ListOfUpdate(temp, p, rest);
    PinkFreshLess(g, temp, temp2, p, v, rest);
    PinkAttrsLess(g, k, k2, temp, temp2, p, v, rest);
    PinkListsLess(g, k, k2, temp, temp2, p, v, rest);
  }

  lemma PinkHead(g: GState, temp: map<Id, seq<Id>>, p: Id, v: Id, rest: seq<Id>)
    requires Mirror(g) && PinkFresh(g, temp) && ListOf(temp, p) == [v] + rest
    ensures NoDup(rest) && v !in rest && Attr(g, p, v).None? && p in g
    ensures Remove(g[p].targets + ([v] + rest), v) == g[p].targets + rest
  {
    assert ([v] + rest)[0] == v;
    assert NoDup(ListOf(temp, p)) && v in ListOf(temp, p);
    assert Attr(g, p, v).None? && p in g;
    NoDupTail(v, rest);
    assert v !in g[p].targets by {
      assert ListsItsEdges(g[p]);
    }
    RemoveMiddle(g[p].targets, v, rest);
  }

  lemma PinkFreshLess(g: GState, temp: map<Id, seq<Id>>, temp2: map<Id, seq<Id>>, p: Id, v: Id, rest: seq<Id>)
    requires PinkFresh(g, temp) && ListOf(temp, p) == [v] + rest && NoDup(rest)
    requires forall a :: ListOf(temp2, a) == if a == p then rest else ListOf(temp, a)
    ensures PinkFresh(g, temp2)
  {
    hide Attr, ListOf, NoDup;
    forall a
      ensures NoDup(ListOf(temp2, a))
    {
      assert NoDup(ListOf(temp, a));
    }
    forall a, x | x in ListOf(temp2, a)
      ensures a in g && x in g && Attr(g, a, x).None?
    {
      StillListed(temp, temp2, p, v, rest, a, x);
      PinkIsFresh(g, temp, a, x);
    }
  }

  lemma StillListed(temp: map<Id, seq<Id>>, temp2: map<Id, seq<Id>>, p: Id, v: Id, rest: seq<Id>, a: Id, x: Id)
    requires ListOf(temp, p) == [v] + rest && x in ListOf(temp2, a)
    requires ListOf(temp2, a) == if a == p then rest else ListOf(temp, a)
    ensures x in ListOf(temp, a)
  {
    hide ListOf;
    if a == p {
      assert x in [v] + rest;
    }
  }

  lemma PinkIsFresh(g: GState, temp: map<Id, seq<Id>>, a: Id, x: Id)
    requires PinkFresh(g, temp) && x in ListOf(temp, a)
    ensures a in g && x in g && Attr(g, a, x).None?
  {
    hide NoDup;
  }

  lemma NoDupTail(v: Id, rest: seq<Id>)
    requires NoDup([v] + rest)
    ensures NoDup(rest) && v !in rest
  {
    var s := [v] + rest;
    assert s[0] == v;
    forall i | 0 <= i < |rest|
      ensures rest[i] != v
    {
      assert s[0] != s[i + 1];
    }
    forall i, j | 0 <= i < j < |rest|
      ensures rest[i] != rest[j]
    {
      assert s[i + 1] == rest[i] && s[j + 1] == rest[j];
    }
  }

  lemma {:induction false} RemoveMiddle(s: seq<Id>, v: Id, rest: seq<Id>)
    requires v !in s
    ensures Remove(s + ([v] + rest), v) == s + rest
  {
    if s == [] {
      assert s + ([v] + rest) == [v] + rest && s + rest == rest;
    } else {
      assert (s + ([v] + rest))[1..] == s[1..] + ([v] + rest);
      RemoveMiddle(s[1..], v, rest);
      assert [s[0]] + (s[1..] + rest) == s + rest;
    }
  }

  lemma PinkAttrsLess(g: GState, k: GState, k2: GState, temp: map<Id, seq<Id>>, temp2: map<Id, seq<Id>>, p: Id, v: Id,
                      rest: seq<Id>)
    requires PinkAttrs(g, k, temp) && ListOf(temp, p) == [v] + rest && v !in rest && Attr(g, p, v).None?
    requires forall a :: ListOf(temp2, a) == if a == p then rest else ListOf(temp, a)
    requires forall a, x :: Attr(k2, a, x) == if a == p && x == v then None else Attr(k, a, x)
    ensures PinkAttrs(g, k2, temp2)
  {
    hide Attr, ListOf;
    forall a, x
      ensures Attr(k2, a, x) == if x in ListOf(temp2, a) then Some(PINK) else Attr(g, a, x)
    {
      assert Attr(k, a, x) == if x in ListOf(temp, a) then Some(PINK) else Attr(g, a, x);
    }
  }

  lemma PinkListsLess(g: GState, k: GState, k2: GState, temp: map<Id, seq<Id>>, temp2: map<Id, seq<Id>>, p: Id, v: Id,
                      rest: seq<Id>)
    requires SameNodes(g, k) && PinkLists(g, k, temp) && ListOf(temp, p) == [v] + rest && p in g
    requires Remove(g[p].targets + ([v] + rest), v) == g[p].targets + rest
    requires forall a :: ListOf(temp2, a) == if a == p then rest else ListOf(temp, a)
    requires forall a :: a in k && a in k2 ==> k2[a].targets == if a == p then Remove(k[a].targets, v) else k[a].targets
    ensures PinkLists(g, k2, temp2)
  {
    hide ListOf, Remove;
    forall a | a in g && a in k2
      ensures k2[a].targets == g[a].targets + ListOf(temp2, a)
    {
      assert k[a].targets == g[a].targets + ListOf(temp, a);
    }
  }

  /** Once every list is empty the graph is the one before: edges, attributes, target
      order and sources. */
  lemma PinkGone(g: GState, k: GState, temp: map<Id, seq<Id>>)
    requires Mirror(g) && Mirror(k) && PinkAdded(g, k, temp) && forall a :: ListOf(temp, a) == []
    ensures k == g
  {
    forall a, x
      ensures Attr(k, a, x) == Attr(g, a, x)
    {
    }
    forall a | a in g
      ensures k[a] == g[a]
    {
      SameAttributes(g, k, a);
      SameSources(g, k, a);
      assert k[a].targets == g[a].targets + ListOf(temp, a);
    }
  }

  /*** An edge p -> l whose end does not lead back to its start ***/

  lemma BackwardsUnchanged(E: Edges, p: Id, l: Id, x: Id)
    requires !Reach(E, l, p) && Reach(E + {(p, l)}, l, x)
    ensures Reach(E, l, x)
  {
    var S := iset y | Reach(E, l, y);
    forall y, z | (y, z) in E + {(p, l)} && y in S
      ensures z in S
    {
      if (y, z) in E {
        ReachEdge(E, y, z);
        ReachTrans(E, l, y, z);
      }
    }
    ReachRefl(E, l);
    ReachClosed(E + {(p, l)}, S, l, x);
  }

  /** It closes no cycle. */
  lemma NoCycleClosed(E: Edges, p: Id, l: Id, v: Id)
    requires !Reach(E, l, p) && Plus(E + {(p, l)}, v, v)
    ensures Plus(E, v, v)
  {
    var F := E + {(p, l)};
    var S := iset y | Plus(E, v, y) || (Reach(F, v, p) && Reach(F, l, y));
    forall y, z | (y, z) in F && y in S
      ensures z in S
    {
      ReachEdge(F, y, z);
      if Plus(E, v, y) {
        if (y, z) in E {
          ReachEdge(E, y, z);
          PlusReach(E, v, y, z);
        } else {
          PlusMono(E, F, v, y);
          ReachCases(F, v, y);
          ReachRefl(F, l);
        }
      } else {
        ReachTrans(F, l, y, z);
      }
    }
    var c :| (v, c) in F && Reach(F, c, v);
    ReachRefl(F, v);
    ReachRefl(E, c);
    ReachRefl(F, l);
    ReachClosed(F, S, c, v);
    if !Plus(E, v, v) {
      ReachTrans(F, l, v, p);
      BackwardsUnchanged(E, p, l, p);
    }
  }

  /** A node that leads to the end of the edge leads nowhere new. */
  lemma NoNewReach(E: Edges, p: Id, l: Id, m: Id, x: Id)
    requires Reach(E, m, l) && Reach(E + {(p, l)}, m, x)
    ensures Reach(E, m, x)
  {
    var S := iset y | Reach(E, m, y);
    forall y, z | (y, z) in E + {(p, l)} && y in S
      ensures z in S
    {
      if (y, z) in E {
        ReachEdge(E, y, z);
        ReachTrans(E, m, y, z);
      }
    }
    ReachRefl(E, m);
    ReachClosed(E + {(p, l)}, S, m, x);
  }

  /** F has all of E, no other edge of F lies on a cycle, and nothing new is in reach of m. */
  ghost predicate Harmless(E: Edges, F: Edges, m: Id) {
    && E <= F
    && (forall v :: Plus(F, v, v) ==> Plus(E, v, v))
    && (forall a, x :: (a, x) in F && (a, x) !in E ==> !Reach(F, x, a))
    && (forall x :: Reach(F, m, x) ==> Reach(E, m, x))
  }

  /** An edge off every cycle stays off every cycle. */
  lemma StillOffCycles(F: Edges, p: Id, l: Id, a: Id, x: Id)
    requires (a, x) in F && !Reach(F, x, a) && !Reach(F, l, p)
    ensures !Reach(F + {(p, l)}, x, a)
  {
    var F2 := F + {(p, l)};
    if Reach(F2, x, a) {
      var S := iset y | Reach(F, x, y) || (Reach(F, x, p) && Reach(F, l, y));
      ReachRefl(F, x);
      ReachRefl(F, l);
      forall y, z | (y, z) in F2 && y in S
        ensures z in S
      {
        if (y, z) in F {
          ReachEdge(F, y, z);
          if Reach(F, x, y) {
            ReachTrans(F, x, y, z);
          } else {
            ReachTrans(F, l, y, z);
          }
        }
      }
      ReachClosed(F2, S, x, a);
      ReachStep(F, a, x, p);
      ReachTrans(F, l, a, p);
    }
  }

  lemma HarmlessStep(E: Edges, F: Edges, m: Id, p: Id, l: Id)
    requires Harmless(E, F, m) && !Reach(F, l, p) && Reach(E, m, l)
    ensures Harmless(E, F + {(p, l)}, m)
  {
    forall a, x | (a, x) in F + {(p, l)} && (a, x) !in E
      ensures !Reach(F + {(p, l)}, x, a)
    {
      if (a, x) in F {
        StillOffCycles(F, p, l, a, x);
      } else if Reach(F + {(p, l)}, l, p) {
        BackwardsUnchanged(F, p, l, p);
      }
    }
    forall v | Plus(F + {(p, l)}, v, v)
      ensures Plus(E, v, v)
    {
      NoCycleClosed(F, p, l, v);
    }
    forall x | Reach(F + {(p, l)}, m, x)
      ensures Reach(E, m, x)
    {
      ReachMono(E, F, m, l);
      NoNewReach(F, p, l, m, x);
    }
  }

  /** The same within a part F1 of the edges: its cycles consist of old edges only. */
  lemma HarmlessWithin(E: Edges, F: Edges, m: Id, F1: Edges, v: Id)
    requires Harmless(E, F, m) && F1 <= F && Plus(F1, v, v)
    ensures Plus(F1 * E, v, v)
  {
    var E1 := F1 * E;
    var S := iset y | Plus(E1, v, y) || !Reach(F, y, v);
    forall y, z | (y, z) in F1 && (y == v || y in S)
      ensures z in S
    {
      ReachRefl(E1, z);
      if Reach(F, z, v) {
        ReachStep(F, y, z, v);
        if (y, z) in E {
          ReachEdge(E1, y, z);
          if y != v {
            PlusReach(E1, v, y, z);
          }
        } else {
          if y != v {
            PlusMono(E1, F, v, y);
          }
          ReachCases(F, v, y);
          ReachTrans(F, z, v, y);
        }
      }
    }
    var c :| (v, c) in F1 && Reach(F1, c, v);
    ReachClosed(F1, S, c, v);
    ReachRefl(F, v);
  }

  lemma HarmlessKeepsCycles(E: Edges, F: Edges, m: Id)
    requires Harmless(E, F, m)
    ensures AcyclicBelow(F, m) <==> AcyclicBelow(E, m)
  {
    forall v
      ensures Reach(F, m, v) <==> Reach(E, m, v)
      ensures Plus(F, v, v) <==> Plus(E, v, v)
    {
      if Reach(E, m, v) {
        ReachMono(E, F, m, v);
      }
      if Plus(E, v, v) {
        PlusMono(E, F, v, v);
      }
    }
  }

  /*** Declaration order ***/

  /** No listed library reaches one listed before it. */
  ghost predicate Orderly(E: Edges, libs: seq<Id>) {
    forall i, j :: 0 <= i < j < |libs| ==> !Reach(E, libs[j], libs[i])
  }

  ghost predicate PairLinked(E: Edges, libs: seq<Id>, i: nat, j: nat)
    requires i < |libs| && j < |libs|
  {
    (libs[i], libs[j]) in E || Reach(E, libs[j], libs[i])
  }

  /** All pairs with j below the bound, and those with j at the bound and i below the
      other, have been treated; what was added starts at a library treated so far. */
  ghost predicate OrderedTo(E: Edges, F: Edges, libs: seq<Id>, jb: nat, ib: nat)
    requires ib <= jb <= |libs|
  {
    && (forall i, j :: 0 <= i < j < |libs| && (j < jb || (j == jb && i < ib)) ==> PairLinked(F, libs, i, j))
    && (Orderly(E, libs) ==>
          forall i, j :: 0 <= i < j < |libs| && (j < jb || (j == jb && i < ib)) ==> (libs[i], libs[j]) in F)
    && (forall e :: e in F && e !in E ==> e.0 in libs[..jb])
  }

  ghost predicate Earlier(libs: seq<Id>, a: Id, x: Id) {
    exists i, j :: 0 <= i < j < |libs| && libs[i] == a && libs[j] == x
  }

  ghost predicate OnlyPairs(E: Edges, F: Edges, libs: seq<Id>) {
    forall a, x :: (a, x) in F && (a, x) !in E ==> Earlier(libs, a, x)
  }

  lemma PairAdded(E: Edges, F: Edges, libs: seq<Id>, j: nat, i: nat, F2: Edges)
    requires i < j < |libs| && OnlyPairs(E, F, libs)
    requires if Reach(F, libs[j], libs[i]) then F2 == F else F2 == F + {(libs[i], libs[j])}
    ensures OnlyPairs(E, F2, libs)
  {
  }

  lemma OrderedStart(E: Edges, libs: seq<Id>)
    requires |libs| > 0
    ensures OrderedTo(E, E, libs, 1, 0)
  {
  }

  lemma OrderedRow(E: Edges, F: Edges, libs: seq<Id>, jb: nat)
    requires jb < |libs| && OrderedTo(E, F, libs, jb, jb)
    ensures OrderedTo(E, F, libs, jb + 1, 0)
  {
    assert libs[..jb + 1] == libs[..jb] + [libs[jb]];
  }

  /** In an orderly list what was added so far does not help a later library to reach an
      earlier one. */
  lemma StillOrderly(E: Edges, F: Edges, libs: seq<Id>, j: nat, i: nat, ib: nat)
    requires ib <= j && i < j < |libs| && OrderedTo(E, F, libs, j, ib) && Orderly(E, libs)
    ensures !Reach(F, libs[j], libs[i])
  {
    if Reach(F, libs[j], libs[i]) {
      var S := iset y | Reach(E, libs[j], y);
      forall y, z | (y, z) in F && y in S
        ensures z in S
      {
        if (y, z) in E {
          ReachEdge(E, y, z);
          ReachTrans(E, libs[j], y, z);
        }
      }
      ReachRefl(E, libs[j]);
      ReachClosed(F, S, libs[j], libs[i]);
    }
  }

  lemma OrderedStep(E: Edges, F: Edges, libs: seq<Id>, j: nat, i: nat, F2: Edges)
    requires i < j < |libs| && OrderedTo(E, F, libs, j, i)
    requires if Reach(F, libs[j], libs[i]) then F2 == F else F2 == F + {(libs[i], libs[j])}
    ensures OrderedTo(E, F2, libs, j, i + 1)
  {
    if Orderly(E, libs) {
      StillOrderly(E, F, libs, j, i, i);
    }
    forall a, b | 0 <= a < b < |libs| && (b < j || (b == j && a < i + 1))
      ensures PairLinked(F2, libs, a, b)
    {
      if !(b == j && a == i) {
        assert PairLinked(F, libs, a, b);
        if Reach(F, libs[b], libs[a]) {
          ReachMono(F, F2, libs[b], libs[a]);
        }
      }
    }
    forall e | e in F2 && e !in E
      ensures e.0 in libs[..j]
    {
      if e == (libs[i], libs[j]) {
        assert libs[..j][i] == libs[i];
      }
    }
  }

  /** The set tells which of libs the node lib reaches. */
  ghost predicate Knows(reachable: set<Id>, F: Edges, lib: Id, libs: seq<Id>) {
    forall x :: x in libs ==> (x in reachable <==> Reach(F, lib, x))
  }

  lemma SpanKnows(g: GState, reachable: set<Id>, lib: Id, libs: seq<Id>)
    requires reachable == Span(g, lib) && forall x :: x in libs ==> x in g
    ensures Knows(reachable, EdgesOf(g), lib, libs)
  {
    ReachRefl(EdgesOf(g), lib);
  }

  lemma NoHarm(E: Edges, m: Id, libs: seq<Id>)
    ensures Harmless(E, E, m) && OnlyPairs(E, E, libs)
  {
  }

  lemma PairStep(E: Edges, F: Edges, libs: seq<Id>, j: nat, i: nat, reachable: set<Id>, m: Id, F2: Edges)
    requires i < j < |libs| && OrderedTo(E, F, libs, j, i) && Harmless(E, F, m)
    requires Knows(reachable, F, libs[j], libs) && Reach(E, m, libs[j]) && OnlyPairs(E, F, libs)
    requires if libs[i] in reachable then F2 == F else F2 == F + {(libs[i], libs[j])}
    ensures OrderedTo(E, F2, libs, j, i + 1) && Harmless(E, F2, m) && Knows(reachable, F2, libs[j], libs)
    ensures OnlyPairs(E, F2, libs)
  {
    assert libs[i] in libs;
    PairAdded(E, F, libs, j, i, F2);
    hide OrderedTo, Harmless, OnlyPairs;
    OrderedStep(E, F, libs, j, i, F2);
    if libs[i] !in reachable {
      HarmlessStep(E, F, m, libs[i], libs[j]);
      forall x | x in libs
        ensures x in reachable <==> Reach(F2, libs[j], x)
      {
        if Reach(F2, libs[j], x) {
          BackwardsUnchanged(F, libs[i], libs[j], x);
        } else if Reach(F, libs[j], x) {
          ReachMono(F, F2, libs[j], x);
        }
      }
    }
  }

  /*** The loops ***/

  /** One pair: an edge that was there already is left as it is and not recorded. */
  method OrderPair(g: Graph, previous: Id, lib: Id, temp: map<Id, seq<Id>>, ghost g0: GState)
    returns (temp2: map<Id, seq<Id>>)
    requires g.Valid() && previous in g.State() && lib in g.State() && PinkAdded(g0, g.State(), temp)
    modifies g, g.nodeMap.Values
    ensures g.Valid() && fresh(g.nodeMap.Values - old(g.nodeMap.Values))
    ensures PinkAdded(g0, g.State(), temp2)
    ensures EdgesOf(g.State()) == EdgesOf(old(g.State())) + {(previous, lib)}
  {
    hide Graph.State, Graph.Valid, Mirror, PinkAdded, WithEdge, WithNode, EdgesOf;
    ghost var k := g.State();
    BothThere(k, previous, lib);
    WithEdgeIs(k, previous, lib);
    WithEdgeKeeps(k, previous, lib);
    LinkColoredKeeps(k, previous, lib, "pink");
    temp2 := temp;
    var isNew := g.AddEdge(previous, lib);
    if isNew {
      temp2 := temp2[previous := ListOf(temp2, previous) + [lib]];
      g.SetEdgeColor(previous, lib, "pink");
      AddPink(g0, k, temp, previous, lib);
    }
  }

  /** Links every library before the j-th to it, unless it reaches that one. What it
      reaches is looked up once, before its own links are made. */
  method OrderBefore(g: Graph, libs: seq<Id>, j: nat, temp: map<Id, seq<Id>>, ghost g0: GState, ghost main: Id)
    returns (temp2: map<Id, seq<Id>>)
    requires g.Valid() && PinkAdded(g0, g.State(), temp)
    requires forall l :: l in libs ==> l in g0 && Reach(EdgesOf(g0), main, l)
    requires Harmless(EdgesOf(g0), EdgesOf(g.State()), main) && OnlyPairs(EdgesOf(g0), EdgesOf(g.State()), libs)
    requires 1 <= j < |libs| && OrderedTo(EdgesOf(g0), EdgesOf(g.State()), libs, j, 0)
    modifies g, g.nodeMap.Values
    ensures g.Valid() && fresh(g.nodeMap.Values - old(g.nodeMap.Values))
    ensures PinkAdded(g0, g.State(), temp2)
    ensures Harmless(EdgesOf(g0), EdgesOf(g.State()), main) && OnlyPairs(EdgesOf(g0), EdgesOf(g.State()), libs)
    ensures OrderedTo(EdgesOf(g0), EdgesOf(g.State()), libs, j + 1, 0)
  {
    hide *;
    ghost var E := EdgesOf(g0);
    var lib := libs[j];
    PinkNodes(g0, g.State(), temp);
    var reachable := GetSubgraphNodeSet(g, lib);
    SpanKnows(g.State(), reachable, lib, libs);
    temp2 := temp;
    for i := 0 to j
      invariant g.Valid() && fresh(g.nodeMap.Values - old(g.nodeMap.Values))
      invariant PinkAdded(g0, g.State(), temp2) && Harmless(E, EdgesOf(g.State()), main)
      invariant OrderedTo(E, EdgesOf(g.State()), libs, j, i) && OnlyPairs(E, EdgesOf(g.State()), libs)
      invariant Knows(reachable, EdgesOf(g.State()), lib, libs)
    {
      var previous := libs[i];
      ghost var F := EdgesOf(g.State());
      if previous !in reachable {
        PinkNodes(g0, g.State(), temp2);
        temp2 := OrderPair(g, previous, lib, temp2, g0);
      }
      PairStep(E, F, libs, j, i, reachable, main, EdgesOf(g.State()));
    }
    OrderedRow(E, EdgesOf(g.State()), libs, j);
  }

  /** Links each library to the ones listed after it, where that closes no cycle. */
  method AddOrderingEdges(g: Graph, libs: seq<Id>, ghost main: Id) returns (temp: map<Id, seq<Id>>)
    requires g.Valid() && forall l :: l in libs ==> l in g.State() && Reach(EdgesOf(g.State()), main, l)
    modifies g, g.nodeMap.Values
    ensures g.Valid() && fresh(g.nodeMap.Values - old(g.nodeMap.Values))
    ensures PinkAdded(old(g.State()), g.State(), temp)
    ensures Harmless(EdgesOf(old(g.State())), EdgesOf(g.State()), main)
    ensures OnlyPairs(EdgesOf(old(g.State())), EdgesOf(g.State()), libs)
    ensures |libs| > 0 ==> OrderedTo(EdgesOf(old(g.State())), EdgesOf(g.State()), libs, |libs|, 0)
  {
    hide *;
    ghost var g0 := g.State();
    ghost var E := EdgesOf(g0);
    temp := map[];
    NoPink(g0);
    NoHarm(E, main, libs);
    if |libs| > 0 {
      OrderedStart(E, libs);
    }
    var j := 1;
    while j < |libs|
      invariant g.Valid() && fresh(g.nodeMap.Values - old(g.nodeMap.Values))
      invariant PinkAdded(g0, g.State(), temp) && Harmless(E, EdgesOf(g.State()), main)
      invariant OnlyPairs(E, EdgesOf(g.State()), libs)
      invariant 1 <= j && (|libs| > 0 ==> j <= |libs| && OrderedTo(E, EdgesOf(g.State()), libs, j, 0))
    {
      temp := OrderBefore(g, libs, j, temp, g0, main);
      j := j + 1;
    }
  }

  method RemoveFrom(g: Graph, key: Id, list: seq<Id>, ghost left0: map<Id, seq<Id>>, ghost g0: GState)
    returns (ghost left: map<Id, seq<Id>>)
    requires g.Valid() && Mirror(g0) && PinkAdded(g0, g.State(), left0) && ListOf(left0, key) == list
    modifies g.nodeMap.Values
    ensures g.Valid() && g.nodeMap == old(g.nodeMap) && PinkAdded(g0, g.State(), left)
    ensures forall a :: ListOf(left, a) == if a == key then [] else ListOf(left0, a)
  {
    hide Graph.State, Graph.Valid, Mirror, PinkAdded, WithoutEdge;
    left := left0;
    assert list[0..] == list;
    for i := 0 to |list|
      invariant g.Valid() && g.nodeMap == old(g.nodeMap)
      invariant PinkAdded(g0, g.State(), left)
      invariant forall a :: ListOf(left, a) == if a == key then list[i..] else ListOf(left0, a)
    {
      ghost var k := g.State();
      assert list[i..] == [list[i]] + list[i + 1..];
      PinkEnds(g0, k, left, key, list[i]);
      RemovePink(g0, k, left, key, list[i], list[i + 1..]);
      ListOfUpdate(left, key, list[i + 1..]);
      left := left[key := list[i + 1..]];
      var _ := g.DeleteEdge(key, list[i]);
    }
  }

  /** Takes the temporary edges out again, the nodes in any order. */
  method RemoveOrderingEdges(g: Graph, temp: map<Id, seq<Id>>, ghost g0: GState)
    requires g.Valid() && Mirror(g0) && PinkAdded(g0, g.State(), temp)
    modifies g.nodeMap.Values
    ensures g.Valid() && g.nodeMap == old(g.nodeMap) && g.State() == g0
  {
    hide Graph.State, Graph.Valid, Mirror, PinkAdded, WithoutEdge;
    ghost var left := temp;
    var keys := temp.Keys;
    while keys != {}
      invariant g.Valid() && g.nodeMap == old(g.nodeMap)
      invariant PinkAdded(g0, g.State(), left)
      invariant forall a :: ListOf(left, a) == if a in keys then ListOf(temp, a) else []
    {
      var key :| key in keys;
      left := RemoveFrom(g, key, ListOf(temp, key), left, g0);
      keys := keys - {key};
    }
    PinkGone(g0, g.State(), left);
  }

  lemma PinkEnds(g: GState, k: GState, temp: map<Id, seq<Id>>, p: Id, l: Id)
    requires PinkAdded(g, k, temp) && l in ListOf(temp, p)
    ensures p in k && l in k
  {
    assert Attr(g, p, l).None?;
  }
}
