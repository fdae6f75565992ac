/** Depth-first topological sort: the order it gives, when it calls a graph acyclic, and
    the in-place algorithm that computes it. */
module TopoSort {
  import opened Wrappers
  import opened Digraph
  import opened GraphState
  import opened Graphs

  datatype Color = White | Gray | Black

  /** The list being built from the back, the verdict so far, and the colours. */
  datatype Dfs = Dfs(list: seq<Id>, isDAG: bool, color: map<Id, Color>)

  /*** The stable sort by priority ***/

  function Insert(g: GState, x: Id, sorted: seq<Id>): seq<Id> {
    if sorted == [] || PriorityOf(g, x) <= PriorityOf(g, sorted[0]) then [x] + sorted
    else [sorted[0]] + Insert(g, x, sorted[1..])
  }

  function ByPriority(g: GState, ids: seq<Id>): seq<Id> {
    if ids == [] then [] else Insert(g, ids[0], ByPriority(g, ids[1..]))
  }

  ghost predicate Sorted(g: GState, ids: seq<Id>) {
    forall i, j :: 0 <= i < j < |ids| ==> PriorityOf(g, ids[i]) <= PriorityOf(g, ids[j])
  }

  function OfPriority(g: GState, ids: seq<Id>, n: int): seq<Id> {
    if ids == [] then []
    else (if PriorityOf(g, ids[0]) == n then [ids[0]] else []) + OfPriority(g, ids[1..], n)
  }

  lemma {:induction false} InsertAdds(g: GState, x: Id, s: seq<Id>)
    ensures multiset(Insert(g, x, s)) == multiset(s) + multiset{x}
  {
    if s != [] && PriorityOf(g, x) > PriorityOf(g, s[0]) {
      assert s == [s[0]] + s[1..];
      InsertAdds(g, x, s[1..]);
    }
  }

  lemma {:induction false} InsertSorts(g: GState, x: Id, s: seq<Id>)
    requires Sorted(g, s)
    ensures Sorted(g, Insert(g, x, s))
  {
    if s != [] && PriorityOf(g, x) > PriorityOf(g, s[0]) {
      InsertSorts(g, x, s[1..]);
      InsertAdds(g, x, s[1..]);
      var r := Insert(g, x, s[1..]);
      forall i | 0 <= i < |r|
        ensures PriorityOf(g, s[0]) <= PriorityOf(g, r[i])
      {
        assert r[i] in multiset(r);
        assert r[i] == x || r[i] in s[1..];
      }
    }
  }

  function IfOf(g: GState, x: Id, n: int): seq<Id> {
    if PriorityOf(g, x) == n then [x] else []
  }

  lemma OfPriorityCons(g: GState, x: Id, s: seq<Id>, n: int)
    ensures OfPriority(g, [x] + s, n) == IfOf(g, x, n) + OfPriority(g, s, n)
  {
    assert ([x] + s)[1..] == s;
  }

  lemma {:induction false} InsertIsStable(g: GState, x: Id, s: seq<Id>, n: int)
    requires Sorted(g, s)
    ensures OfPriority(g, Insert(g, x, s), n) == IfOf(g, x, n) + OfPriority(g, s, n)
  {
    if s == [] || PriorityOf(g, x) <= PriorityOf(g, s[0]) {
      OfPriorityCons(g, x, s, n);
    } else {
      OfPriorityCons(g, s[0], Insert(g, x, s[1..]), n);
      InsertIsStable(g, x, s[1..], n);
    }
  }

  /** A permutation, in ascending order, that keeps names of one priority in order. */
  lemma {:induction false} ByPriorityIsStable(g: GState, ids: seq<Id>, n: int)
    ensures multiset(ByPriority(g, ids)) == multiset(ids)
    ensures Sorted(g, ByPriority(g, ids))
    ensures OfPriority(g, ByPriority(g, ids), n) == OfPriority(g, ids, n)
  {
    if ids != [] {
      assert ids == [ids[0]] + ids[1..];
      OfPriorityCons(g, ids[0], ids[1..], n);
      ByPriorityIsStable(g, ids[1..], n);
      InsertAdds(g, ids[0], ByPriority(g, ids[1..]));
      InsertSorts(g, ids[0], ByPriority(g, ids[1..]));
      InsertIsStable(g, ids[0], ByPriority(g, ids[1..]), n);
    }
  }

  lemma SortedMembers(g: GState, ids: seq<Id>, x: Id)
    ensures x in ByPriority(g, ids) <==> x in ids
  {
    ByPriorityIsStable(g, ids, 0);
    assert x in multiset(ByPriority(g, ids)) <==> x in multiset(ids);
  }

  /*** The sort as a function of the graph and the order its nodes come in ***/

  function Reversed(s: seq<Id>): seq<Id> {
    if s == [] then [] else Reversed(s[1..]) + [s[0]]
  }

  lemma {:induction false} ReversedMembers(s: seq<Id>, x: Id)
    ensures x in Reversed(s) <==> x in s
  {
    if s != [] {
      assert s == [s[0]] + s[1..];
      ReversedMembers(s[1..], x);
    }
  }

  function Children(g: GState, id: Id): seq<Id> {
    if id in g then ByPriority(g, Reversed(g[id].targets)) else []
  }

  function Whites(d: Dfs): set<Id> {
    set v | v in d.color && d.color[v] == White
  }

  function Visit(g: GState, id: Id, d: Dfs): (r: Dfs)
    ensures Whites(r) <= Whites(d)
    decreases |Whites(d)|, 0
  {
    if id !in d.color || d.color[id] == Black then d
    else if d.color[id] == Gray then d.(isDAG := false)
    else
      var d1 := d.(color := d.color[id := Gray]);
      assert Whites(d1) == Whites(d) - {id};
      assert |Whites(d1)| < |Whites(d)|;
      var d2 := VisitAll(g, Children(g, id), d1);
      var r := Dfs([id] + d2.list, d2.isDAG, d2.color[id := Black]);
      assert Whites(r) <= Whites(d2);
      r
  }

  function VisitAll(g: GState, ids: seq<Id>, d: Dfs): (r: Dfs)
    ensures Whites(r) <= Whites(d)
    decreases |Whites(d)|, |ids|
  {
    if ids == [] then d
    else
      var d1 := Visit(g, ids[0], d);
      WhitesShrink(d, d1);
      VisitAll(g, ids[1..], d1)
  }

  lemma WhitesShrink(d: Dfs, d1: Dfs)
    requires Whites(d1) <= Whites(d)
    ensures |Whites(d1)| <= |Whites(d)|
  {
    SubsetSize(Whites(d1), Whites(d));
  }

  function Start(g: GState): Dfs {
    Dfs([], true, map v | v in g :: White)
  }

  function SortFrom(g: GState, order: seq<Id>): Dfs {
    VisitAll(g, ByPriority(g, order), Start(g))
  }

  lemma NoChildren(g: GState, id: Id)
    ensures Children(g, id) == ByPriority(g, Reversed(if id in g then g[id].targets else []))
  {
  }

  /*** What one visit keeps ***/

  ghost predicate EdgesForward(g: GState, list: seq<Id>) {
    forall i, t :: 0 <= i < |list| && (list[i], t) in EdgesOf(g) ==> t in list[i + 1..]
  }

  ghost predicate Good(g: GState, d: Dfs) {
    && d.color.Keys == g.Keys
    && NoDup(d.list)
    && (forall v :: v in d.list <==> v in d.color && d.color[v] == Black)
    && (d.isDAG ==> EdgesForward(g, d.list))
    && (!d.isDAG ==> !Acyclic(EdgesOf(g)))
  }

  ghost predicate GraysLeadTo(g: GState, d: Dfs, id: Id) {
    forall v :: v in d.color && d.color[v] == Gray ==> Plus(EdgesOf(g), v, id)
  }

  /** From d to r grays stay gray, blacks stay black and no node turns gray. */
  ghost predicate Advances(d: Dfs, r: Dfs) {
    && r.color.Keys == d.color.Keys
    && (r.isDAG ==> d.isDAG)
    && (forall v :: v in d.color ==> (r.color[v] == Gray <==> d.color[v] == Gray))
    && (forall v :: v in d.color && d.color[v] == Black ==> r.color[v] == Black)
  }

  /** A visited node is finished, unless a cycle came up. */
  ghost predicate Finished(r: Dfs, id: Id) {
    id in r.color && r.color[id] != White && (r.isDAG ==> r.color[id] == Black)
  }

  lemma {:induction false} VisitKeeps(g: GState, id: Id, d: Dfs)
    requires Mirror(g) && id in g && Good(g, d) && GraysLeadTo(g, d, id)
    ensures Good(g, Visit(g, id, d)) && Advances(d, Visit(g, id, d)) && Finished(Visit(g, id, d), id)
    decreases |Whites(d)|, 0
  {
    hide *;
    Coloured(g, id, d);
    if d.color[id] != White {
      SeenBefore(g, id, d);
    } else {
      var d1 := d.(color := d.color[id := Gray]);
      TurnsGray(id, d);
      ChildrenReady(g, id, d);
      VisitAllKeeps(g, Children(g, id), d1);
      VisitIs(g, id, d);
      PushKeeps(g, id, d, VisitAll(g, Children(g, id), d1));
    }
  }

  lemma Coloured(g: GState, id: Id, d: Dfs)
    requires id in g && Good(g, d)
    ensures id in d.color
  {
  }

  lemma SeenBefore(g: GState, id: Id, d: Dfs)
    requires id in d.color && d.color[id] != White && Good(g, d) && GraysLeadTo(g, d, id)
    ensures Good(g, Visit(g, id, d)) && Advances(d, Visit(g, id, d)) && Finished(Visit(g, id, d), id)
  {
    hide NoDup, EdgesForward;
    if d.color[id] == Gray {
      assert Plus(EdgesOf(g), id, id);
    }
  }

  lemma TurnsGray(id: Id, d: Dfs)
    requires id in d.color && d.color[id] == White
    ensures |Whites(d.(color := d.color[id := Gray]))| < |Whites(d)|
  {
    assert Whites(d.(color := d.color[id := Gray])) == Whites(d) - {id};
  }

  lemma VisitSeen(g: GState, id: Id, d: Dfs)
    ensures id !in d.color || d.color[id] == Black ==> Visit(g, id, d) == d
    ensures id in d.color && d.color[id] == Gray ==> Visit(g, id, d) == d.(isDAG := false)
  {
    hide VisitAll;
  }

  lemma VisitIs(g: GState, id: Id, d: Dfs)
    requires id in d.color && d.color[id] == White
    ensures var d2 := VisitAll(g, Children(g, id), d.(color := d.color[id := Gray]));
            Visit(g, id, d) == Dfs([id] + d2.list, d2.isDAG, d2.color[id := Black])
  {
    hide Children;
    assert Whites(d.(color := d.color[id := Gray])) == Whites(d) - {id};
  }

  lemma ChildrenReady(g: GState, id: Id, d: Dfs)
    requires Mirror(g) && id in g && Good(g, d) && d.color[id] == White && GraysLeadTo(g, d, id)
    ensures Good(g, d.(color := d.color[id := Gray]))
    ensures forall t :: t in Children(g, id) ==> t in g && GraysLeadTo(g, d.(color := d.color[id := Gray]), t)
  {
    hide Mirror, Children, EdgesForward, NoDup, GraysLeadTo, EdgesOf;
    forall t | t in Children(g, id)
      ensures t in g && GraysLeadTo(g, d.(color := d.color[id := Gray]), t)
    {
      ChildIsTarget(g, id, t);
      GraysLeadOn(g, d, id, t);
    }
  }

  lemma ChildIsTarget(g: GState, id: Id, t: Id)
    requires Mirror(g) && id in g
    ensures t in Children(g, id) <==> (id, t) in EdgesOf(g)
    ensures (id, t) in EdgesOf(g) ==> t in g
  {
    SortedMembers(g, Reversed(g[id].targets), t);
    ReversedMembers(g[id].targets, t);
    assert ListsItsEdges(g[id]);
    assert HasEdge(g, id, t) <==> HasSource(g, id, t);
  }

  lemma GraysLeadOn(g: GState, d: Dfs, id: Id, t: Id)
    requires GraysLeadTo(g, d, id) && (id, t) in EdgesOf(g)
    ensures GraysLeadTo(g, d.(color := d.color[id := Gray]), t)
  {
    var E := EdgesOf(g);
    ReachEdge(E, id, t);
    ReachRefl(E, t);
    forall v | v in d.color && d.color[v] == Gray
      ensures Plus(E, v, t)
    {
      PlusReach(E, v, id, t);
    }
  }

  lemma PushKeeps(g: GState, id: Id, d0: Dfs, d: Dfs)
    requires Mirror(g) && id in g && Good(g, d)
    requires id in d0.color && d0.color[id] == White && Advances(d0.(color := d0.color[id := Gray]), d)
    requires forall t :: t in Children(g, id) ==> Finished(d, t)
    ensures var r := Dfs([id] + d.list, d.isDAG, d.color[id := Black]);
            Good(g, r) && Advances(d0, r) && Finished(r, id)
  {
    var r := Dfs([id] + d.list, d.isDAG, d.color[id := Black]);
    assert id !in d.list;
    if d.isDAG {
      forall i, t | 0 <= i < |r.list| && (r.list[i], t) in EdgesOf(g)
        ensures t in r.list[i + 1..]
      {
        assert r.list[1..] == d.list;
        if i == 0 {
          ChildIsTarget(g, id, t);
          assert Finished(d, t);
        } else {
          assert t in d.list[i - 1 + 1..];
          assert r.list[i + 1..] == d.list[i..];
        }
      }
    }
  }

  lemma {:induction false} VisitAllKeeps(g: GState, ids: seq<Id>, d: Dfs)
    requires Mirror(g) && Good(g, d)
    requires forall t :: t in ids ==> t in g && GraysLeadTo(g, d, t)
    ensures Good(g, VisitAll(g, ids, d)) && Advances(d, VisitAll(g, ids, d))
    ensures forall t :: t in ids ==> Finished(VisitAll(g, ids, d), t)
    decreases |Whites(d)|, |ids|
  {
    hide *;
    VisitAllIs(g, ids, d);
    if ids == [] {
      AdvancesNot(d);
    } else {
      var d1 := Visit(g, ids[0], d);
      VisitKeeps(g, ids[0], d);
      WhitesShrink(d, d1);
      StillLead(g, ids, d, d1);
      VisitAllKeeps(g, ids[1..], d1);
      AllFinished(ids, d, d1, VisitAll(g, ids, d));
    }
  }

  lemma VisitAllIs(g: GState, ids: seq<Id>, d: Dfs)
    ensures VisitAll(g, ids, d) == if ids == [] then d else VisitAll(g, ids[1..], Visit(g, ids[0], d))
    ensures ids != [] ==> Whites(Visit(g, ids[0], d)) <= Whites(d)
  {
    hide Visit;
  }

  lemma AdvancesNot(d: Dfs)
    ensures Advances(d, d)
  {
  }

  lemma StillLead(g: GState, ids: seq<Id>, d: Dfs, d1: Dfs)
    requires ids != [] && Advances(d, d1)
    requires forall t :: t in ids ==> t in g && GraysLeadTo(g, d, t)
    ensures forall t :: t in ids[1..] ==> t in g && GraysLeadTo(g, d1, t)
  {
    forall t | t in ids[1..]
      ensures t in g && GraysLeadTo(g, d1, t)
    {
      assert t in ids;
    }
  }

  lemma AllFinished(ids: seq<Id>, d: Dfs, d1: Dfs, r: Dfs)
    requires ids != [] && Advances(d, d1) && Advances(d1, r)
    requires Finished(d1, ids[0]) && forall t :: t in ids[1..] ==> Finished(r, t)
    ensures Advances(d, r) && forall t :: t in ids ==> Finished(r, t)
  {
    assert ids == [ids[0]] + ids[1..];
  }

  /*** The main results ***/

  /** Every edge points forward in the list. */
  ghost predicate Forward(E: Edges, list: seq<Id>) {
    forall i, j | 0 <= i < |list| && 0 <= j < |list| && (list[i], list[j]) in E :: i < j
  }

  /** Whatever order the nodes come in, every node is listed exactly once; the graph is
      called acyclic exactly when it is; and then every edge points forward. */
  lemma SortIsTopological(g: GState, order: seq<Id>)
    requires Mirror(g) && AllNodesOnce(g, order)
    ensures var r := SortFrom(g, order);
            && AllNodesOnce(g, r.list)
            && (r.isDAG <==> Acyclic(EdgesOf(g)))
            && (r.isDAG ==> Forward(EdgesOf(g), r.list))
  {
    hide Visit, ByPriority, Mirror, EdgesForward;
    var ids, d := ByPriority(g, order), Start(g);
    forall t
      ensures t in ids <==> t in g
    {
      SortedMembers(g, order, t);
    }
    StartIsGood(g);
    VisitAllKeeps(g, ids, d);
    var r := SortFrom(g, order);
    forall v | v in g
      ensures v in r.list
    {
      assert Finished(r, v);
    }
    if r.isDAG {
      ForwardIsAcyclic(g, r.list);
      EdgesForwardIsForward(g, r.list);
    }
  }

  lemma StartIsGood(g: GState)
    ensures Good(g, Start(g)) && forall t :: GraysLeadTo(g, Start(g), t)
  {
  }

  lemma EdgesForwardIsForward(g: GState, list: seq<Id>)
    requires NoDup(list) && EdgesForward(g, list)
    ensures Forward(EdgesOf(g), list)
  {
    forall i, j | 0 <= i < |list| && 0 <= j < |list| && (list[i], list[j]) in EdgesOf(g)
      ensures i < j
    {
      var k :| 0 <= k < |list[i + 1..]| && list[i + 1..][k] == list[j];
      assert list[i + 1 + k] == list[j];
    }
  }

  lemma ForwardIsAcyclic(g: GState, list: seq<Id>)
    requires Mirror(g) && NoDup(list) && EdgesForward(g, list) && forall v :: v in list <==> v in g
    ensures Acyclic(EdgesOf(g))
  {
    var rank := map v | v in g :: |list| - IndexOf(list, v);
    forall s, t | (s, t) in EdgesOf(g)
      ensures s in rank && t in rank && rank[s] > rank[t]
    {
      assert HasEdge(g, s, t) && HasSource(g, s, t);
      var i := IndexOf(list, s);
      assert t in list[i + 1..];
      var k :| 0 <= k < |list[i + 1..]| && list[i + 1..][k] == t;
      assert list[i + 1 + k] == t;
    }
    RankedIsAcyclic(EdgesOf(g), rank);
  }

  ghost function IndexOf(list: seq<Id>, v: Id): (i: nat)
    requires v in list
    ensures i < |list| && list[i] == v
  {
    var i :| 0 <= i < |list| && list[i] == v;
    i
  }

  /*** Declaration order ***/

  lemma {:induction false} EqualPrioritiesStay(g: GState, ids: seq<Id>, n: int)
    requires forall x :: x in ids ==> PriorityOf(g, x) == n
    ensures ByPriority(g, ids) == ids
  {
    if ids != [] {
      EqualPrioritiesStay(g, ids[1..], n);
      assert |ids| > 1 ==> ids[1..][0] == ids[1];
    }
  }

  /** Leaves of one priority come out in the order they were declared in. */
  lemma {:induction false} LeavesInOrder(g: GState, ts: seq<Id>, d: Dfs)
    requires NoDup(ts)
    requires forall t :: t in ts ==> t in g && g[t].targets == [] && t in d.color && d.color[t] == White
    ensures var r := VisitAll(g, Reversed(ts), d);
            && r.list == ts + d.list && r.isDAG == d.isDAG && r.color.Keys == d.color.Keys
            && (forall v :: v in d.color ==> r.color[v] == if v in ts then Black else d.color[v])
    decreases |ts|
  {
    if ts != [] {
      var rest := ts[1..];
      assert ts == [ts[0]] + rest && ts[0] !in rest;
      LeavesInOrder(g, rest, d);
      VisitAllAppend(g, Reversed(rest), ts[0], d);
      var d1 := VisitAll(g, Reversed(rest), d);
      assert Children(g, ts[0]) == [];
      assert [ts[0]] + d1.list == ts + d.list;
    }
  }

  lemma {:induction false} VisitAllAppend(g: GState, ids: seq<Id>, t: Id, d: Dfs)
    ensures VisitAll(g, ids + [t], d) == Visit(g, t, VisitAll(g, ids, d))
    decreases |ids|
  {
    if ids == [] {
      assert [t][1..] == [] && [] + [t] == [t];
      var d1 := Visit(g, t, d);
      assert VisitAll(g, [], d1) == d1;
    } else {
      assert (ids + [t])[0] == ids[0] && (ids + [t])[1..] == ids[1..] + [t];
      VisitAllAppend(g, ids[1..], t, Visit(g, ids[0], d));
    }
  }

  lemma {:induction false} VisitedIsSkipped(g: GState, ids: seq<Id>, d: Dfs)
    requires forall t :: t in ids ==> t in d.color && d.color[t] == Black
    ensures VisitAll(g, ids, d) == d
    decreases |ids|
  {
    if ids != [] {
      VisitedIsSkipped(g, ids[1..], d);
    }
  }

  /** A root, visited first, whose targets are leaves of one priority is followed by them
      in declaration order. */
  lemma TargetsKeepDeclaredOrder(g: GState, order: seq<Id>, root: Id, n: int)
    requires Mirror(g) && AllNodesOnce(g, order) && root in g && root !in g[root].targets
    requires forall v :: v in g ==> v == root || v in g[root].targets
    requires forall t :: t in g[root].targets ==> t in g && g[t].targets == [] && g[t].priority == n
    requires g[root].priority < n
    ensures SortFrom(g, order).list == [root] + g[root].targets
  {
    var ts, ids, d := g[root].targets, ByPriority(g, order), Start(g);
    assert ListsItsEdges(g[root]);
    LeastComesFirst(g, order, root, n);
    ReversedOfOnePriority(g, ts, n);
    hide ByPriority, Reversed, Mirror, ListsItsEdges;
    RootThenTargets(g, root, n);
    RestIsMembers(g, order);
    VisitedIsSkipped(g, ids[1..], Visit(g, root, d));
  }

  lemma RootThenTargets(g: GState, root: Id, n: int)
    requires root in g && root !in g[root].targets
    requires NoDup(g[root].targets) && ByPriority(g, Reversed(g[root].targets)) == Reversed(g[root].targets)
    requires forall v :: v in g ==> v == root || v in g[root].targets
    requires forall t :: t in g[root].targets ==> t in g && g[t].targets == []
    ensures var r := Visit(g, root, Start(g));
            r.list == [root] + g[root].targets && forall t :: t in g ==> t in r.color && r.color[t] == Black
  {
    hide ByPriority, Reversed;
    var ts, d := g[root].targets, Start(g);
    var d1 := d.(color := d.color[root := Gray]);
    LeavesInOrder(g, ts, d1);
    assert ts + d1.list == ts;
  }

  lemma RestIsMembers(g: GState, order: seq<Id>)
    requires AllNodesOnce(g, order) && ByPriority(g, order) != []
    ensures forall t :: t in ByPriority(g, order)[1..] ==> t in g
  {
    forall t | t in ByPriority(g, order)[1..]
      ensures t in g
    {
      SortedMembers(g, order, t);
    }
  }

  lemma LeastComesFirst(g: GState, order: seq<Id>, root: Id, n: int)
    requires root in order && PriorityOf(g, root) < n
    requires forall v :: v in order && v != root ==> PriorityOf(g, v) == n
    ensures ByPriority(g, order) != [] && ByPriority(g, order)[0] == root
  {
    var ids := ByPriority(g, order);
    SortedMembers(g, order, root);
    ByPriorityIsStable(g, order, 0);
    var i :| 0 <= i < |ids| && ids[i] == root;
    if i > 0 {
      SortedMembers(g, order, ids[0]);
      assert PriorityOf(g, ids[0]) <= PriorityOf(g, ids[i]);
    }
  }

  lemma ReversedOfOnePriority(g: GState, ts: seq<Id>, n: int)
    requires forall t :: t in ts ==> PriorityOf(g, t) == n
    ensures ByPriority(g, Reversed(ts)) == Reversed(ts)
  {
    forall t | t in Reversed(ts)
      ensures PriorityOf(g, t) == n
    {
      ReversedMembers(ts, t);
    }
    EqualPrioritiesStay(g, Reversed(ts), n);
  }

  /*** The algorithm ***/

  /** What the recursive visits share and update. */
  class Sorter {
    var list: seq<Id>
    var isDAG: bool
    var color: map<Id, Color>

    constructor (nodes: seq<Id>)
      ensures list == [] && isDAG
      ensures color == map v | v in nodes :: White
    {
      list := [];
      isDAG := true;
      color := map v | v in nodes :: White;
    }

    ghost function Value(): Dfs
      reads this
    {
      Dfs(list, isDAG, color)
    }

    method VisitNode(g: Graph, id: Id)
      requires g.Valid()
      modifies this
      ensures Value() == Visit(g.State(), id, old(Value()))
      decreases |Whites(Value())|, 0
    {
      hide ByPriority, Reversed, NoDup, Mirror, Visit, VisitAll, Children, Whites, Graph.Valid, Graph.State;
      ghost var d := Value();
      VisitSeen(g.State(), id, d);
      if id in color && color[id] == Gray {
        isDAG := false;
      } else if id in color && color[id] == White {
        TurnsGray(id, d);
        VisitIs(g.State(), id, d);
        color := color[id := Gray];
        var children := ByPriority(g.State(), Reversed(g.GetTargets(id)));
        NoChildren(g.State(), id);
        VisitNodes(g, children);
        color := color[id := Black];
        list := [id] + list;
      }
    }

    method VisitNodes(g: Graph, ids: seq<Id>)
      requires g.Valid()
      modifies this
      ensures Value() == VisitAll(g.State(), ids, old(Value()))
      decreases |Whites(Value())|, |ids|
    {
      hide Visit, VisitAll, Whites, Graph.Valid, Graph.State, Mirror;
      ghost var d := Value();
      assert ids[0..] == ids;
      for i := 0 to |ids|
        invariant Whites(Value()) <= Whites(d)
        invariant VisitAll(g.State(), ids, d) == VisitAll(g.State(), ids[i..], Value())
      {
        WhitesShrink(d, Value());
        VisitAllIs(g.State(), ids[i..], Value());
        VisitNode(g, ids[i]);
        assert ids[i..][1..] == ids[i + 1..];
      }
      VisitAllIs(g.State(), ids[|ids|..], Value());
    }
  }

  method TopologicalSort(g: Graph) returns (list: seq<Id>, isDAG: bool, ghost order: seq<Id>)
    requires g.Valid()
    ensures AllNodesOnce(g.State(), list)
    ensures isDAG <==> Acyclic(EdgesOf(g.State()))
    ensures isDAG ==> Forward(EdgesOf(g.State()), list)
    ensures AllNodesOnce(g.State(), order)
    ensures list == SortFrom(g.State(), order).list && isDAG == SortFrom(g.State(), order).isDAG
  {
    hide Mirror, ByPriority, VisitAll, Visit, Graph.Valid, Graph.State;
    var colored := g.GetNodes();
    var s := new Sorter(colored);
    var nodes := g.GetNodes();
    order := nodes;
    assert s.color == Start(g.State()).color;
    s.VisitNodes(g, ByPriority(g.State(), nodes));
    SortIsTopological(g.State(), order);
    return s.list, s.isDAG, order;
  }
}
