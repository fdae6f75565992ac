/** How priorities and declaration order show in a sorted list. */
module SortOrder {
  import opened Wrappers
  import opened Digraph
  import opened GraphState
  import opened TopoSort

  /** x stands before y in the list. */
  ghost predicate Before(list: seq<Id>, x: Id, y: Id) {
    exists i, j :: 0 <= i < j < |list| && list[i] == x && list[j] == y
  }

  /** a lists x in front of y. */
  ghost predicate ListedBefore(g: GState, a: Id, x: Id, y: Id) {
    a in g && Before(g[a].targets, x, y)
  }

  /*** Order among the children of a node ***/

  lemma BeforeIn(list: seq<Id>, x: Id, y: Id)
    requires Before(list, x, y)
    ensures x in list && y in list
  {
  }

  lemma BeforeOrAfter(list: seq<Id>, x: Id, y: Id)
    requires x in list && y in list && x != y
    ensures Before(list, x, y) || Before(list, y, x)
  {
    var i :| 0 <= i < |list| && list[i] == x;
    var j :| 0 <= j < |list| && list[j] == y;
  }

  lemma NotBoth(list: seq<Id>, x: Id, y: Id)
    requires NoDup(list) && Before(list, x, y)
    ensures !Before(list, y, x)
  {
  }

  lemma BeforeHead(a: Id, s: seq<Id>, x: Id, y: Id)
    ensures Before([a] + s, x, y) <==> (x == a && y in s) || Before(s, x, y)
  {
    var t := [a] + s;
    if Before(t, x, y) {
      var i, j :| 0 <= i < j < |t| && t[i] == x && t[j] == y;
      assert t[j] == s[j - 1];
      assert i > 0 ==> t[i] == s[i - 1];
    }
    if Before(s, x, y) {
      var i, j :| 0 <= i < j < |s| && s[i] == x && s[j] == y;
      assert t[i + 1] == x && t[j + 1] == y;
    }
    if x == a && y in s {
      var j :| 0 <= j < |s| && s[j] == y;
      assert t[0] == x && t[j + 1] == y;
    }
  }

  lemma BeforeLast(s: seq<Id>, a: Id, x: Id, y: Id)
    ensures Before(s + [a], x, y) <==> (y == a && x in s) || Before(s, x, y)
  {
    var t := s + [a];
    if Before(t, x, y) {
      var i, j :| 0 <= i < j < |t| && t[i] == x && t[j] == y;
      assert t[i] == s[i];
      assert j < |s| ==> t[j] == s[j];
    }
    if Before(s, x, y) {
      var i, j :| 0 <= i < j < |s| && s[i] == x && s[j] == y;
      assert t[i] == x && t[j] == y;
    }
    if y == a && x in s {
      var i :| 0 <= i < |s| && s[i] == x;
      assert t[i] == x && t[|s|] == y;
    }
  }

  lemma {:induction false} ReversedTurns(s: seq<Id>, x: Id, y: Id)
    ensures Before(Reversed(s), x, y) <==> Before(s, y, x)
  {
    hide Before;
    if s == [] {
      NothingBefore(x, y);
      NothingBefore(y, x);
    } else {
      assert s == [s[0]] + s[1..];
      ReversedTurns(s[1..], x, y);
      ReversedMembers(s[1..], x);
      BeforeHead(s[0], s[1..], y, x);
      BeforeLast(Reversed(s[1..]), s[0], x, y);
    }
  }

  lemma NothingBefore(x: Id, y: Id)
    ensures !Before([], x, y)
  {
  }

  lemma {:induction false} OfPriorityMembers(g: GState, s: seq<Id>, n: int, x: Id)
    ensures x in OfPriority(g, s, n) <==> x in s && PriorityOf(g, x) == n
  {
    if s != [] {
      assert s == [s[0]] + s[1..];
      OfPriorityMembers(g, s[1..], n, x);
    }
  }

  /** Names of one priority stand to each other as they do among those of that priority. */
  lemma {:induction false} OfPriorityOrder(g: GState, s: seq<Id>, n: int, x: Id, y: Id)
    requires PriorityOf(g, x) == n && PriorityOf(g, y) == n
    ensures Before(OfPriority(g, s, n), x, y) <==> Before(s, x, y)
  {
    hide Before;
    if s != [] {
      var rest := OfPriority(g, s[1..], n);
      assert s == [s[0]] + s[1..];
      OfPriorityOrder(g, s[1..], n, x, y);
      OfPriorityMembers(g, s[1..], n, y);
      BeforeHead(s[0], s[1..], x, y);
      BeforeHead(s[0], rest, x, y);
      assert OfPriority(g, s, n) == if PriorityOf(g, s[0]) == n then [s[0]] + rest else rest;
    }
  }

  /** y goes in front of x: it has the higher priority, or the same and is listed first. */
  ghost predicate Favoured(g: GState, a: Id, y: Id, x: Id) {
    PriorityOf(g, x) < PriorityOf(g, y) || (PriorityOf(g, x) == PriorityOf(g, y) && ListedBefore(g, a, y, x))
  }

  /** A favoured child is visited later. */
  lemma FavouredLater(g: GState, a: Id, x: Id, y: Id)
    requires Mirror(g) && a in g && x in g[a].targets && y in g[a].targets && x != y && Favoured(g, a, y, x)
    ensures Before(Children(g, a), x, y) && !Before(Children(g, a), y, x)
    ensures x in Children(g, a) && y in Children(g, a)
  {
    var ts := g[a].targets;
    var ids := Reversed(ts);
    assert ListsItsEdges(g[a]);
    hide Mirror, ListsItsEdges, Before, ByPriority, Reversed;
    ReversedMembers(ts, x);
    ReversedMembers(ts, y);
    SortedMembers(g, ids, x);
    SortedMembers(g, ids, y);
    ByPriorityIsStable(g, ids, PriorityOf(g, y));
    NoDupSorted(g, ts);
    var cs := ByPriority(g, ids);
    BeforeOrAfter(cs, x, y);
    if PriorityOf(g, x) < PriorityOf(g, y) {
      if Before(cs, y, x) {
        SortedBefore(g, cs, y, x);
      }
    } else {
      var n := PriorityOf(g, y);
      ReversedTurns(ts, x, y);
      OfPriorityOrder(g, ids, n, x, y);
      OfPriorityOrder(g, cs, n, x, y);
      NotBoth(cs, x, y);
    }
  }

  lemma SortedBefore(g: GState, s: seq<Id>, x: Id, y: Id)
    requires Sorted(g, s) && Before(s, x, y)
    ensures PriorityOf(g, x) <= PriorityOf(g, y)
  {
  }

  /** A list without repeats has none when it is turned round and sorted. */
  lemma NoDupSorted(g: GState, s: seq<Id>)
    requires NoDup(s)
    ensures NoDup(ByPriority(g, Reversed(s)))
  {
    ReversedCounts(s);
    ByPriorityIsStable(g, Reversed(s), 0);
    SingleIsNoDup(s, ByPriority(g, Reversed(s)));
  }

  lemma {:induction false} ReversedCounts(s: seq<Id>)
    ensures multiset(Reversed(s)) == multiset(s)
  {
    if s != [] {
      assert s == [s[0]] + s[1..];
      ReversedCounts(s[1..]);
    }
  }

  lemma SingleIsNoDup(s: seq<Id>, t: seq<Id>)
    requires NoDup(s) && multiset(t) == multiset(s)
    ensures NoDup(t)
  {
    forall i, j | 0 <= i < j < |t|
      ensures t[i] != t[j]
    {
      NoDupCounts(s, t[i]);
      TwiceCounts(t, i, j);
    }
  }

  lemma TwiceCounts(t: seq<Id>, i: nat, j: nat)
    requires i < j < |t|
    ensures t[i] == t[j] ==> multiset(t)[t[i]] >= 2
  {
    assert t == t[..j] + t[j..];
    assert t[i] == t[..j][i] && t[j] == t[j..][0];
    assert t[i] in t[..j] && t[j] in t[j..];
  }

  lemma {:induction false} NoDupCounts(s: seq<Id>, x: Id)
    requires NoDup(s)
    ensures multiset(s)[x] <= 1
  {
    if s != [] {
      assert s == [s[0]] + s[1..];
      forall i, j | 0 <= i < j < |s[1..]|
        ensures s[1..][i] != s[1..][j]
      {
        assert s[i + 1] != s[j + 1];
      }
      NoDupCounts(s[1..], x);
      HeadIsNew(s);
    }
  }

  lemma HeadIsNew(s: seq<Id>)
    requires NoDup(s) && s != []
    ensures s[0] !in s[1..]
  {
    forall i | 0 <= i < |s[1..]|
      ensures s[1..][i] != s[0]
    {
      assert s[0] != s[i + 1];
    }
  }

  /*** Order in the list being built ***/

  /** If y has been listed then x has, behind it. */
  ghost predicate Follows(d: Dfs, y: Id, x: Id) {
    y in d.list ==> Before(d.list, y, x)
  }

  ghost predicate IsBlack(d: Dfs, x: Id) {
    x in d.color && d.color[x] == Black
  }

  /** y has no user but a. */
  ghost predicate OnlyUser(E: Edges, a: Id, y: Id) {
    forall p :: (p, y) in E ==> p == a
  }

  /** In ids, y is not called for before x is, unless x is done. */
  ghost predicate CalledAfter(ids: seq<Id>, d: Dfs, x: Id, y: Id) {
    y in ids ==> IsBlack(d, x) || (x in ids && !Before(ids, y, x))
  }

  lemma PushFollows(d: Dfs, id: Id, y: Id, x: Id)
    requires Follows(d, y, x) && (id == y ==> x in d.list) && (id == x ==> y !in d.list)
    ensures Follows(Dfs([id] + d.list, d.isDAG, d.color[id := Black]), y, x)
  {
    hide Before;
    BeforeHead(id, d.list, y, x);
  }

  /** Visiting y when x is done puts it in front of x, and visiting another node never
      lists y unless a does. */
  lemma {:induction false} VisitFollows(g: GState, id: Id, d: Dfs, a: Id, x: Id, y: Id)
    requires Mirror(g) && id in g && Good(g, d) && GraysLeadTo(g, d, id) && Acyclic(EdgesOf(g))
    requires OnlyUser(EdgesOf(g), a, y) && a in g && x in g[a].targets && y in g[a].targets
    requires x != y && Favoured(g, a, y, x)
    requires Follows(d, y, x) && (id == y ==> IsBlack(d, x))
    ensures Follows(Visit(g, id, d), y, x)
    decreases |Whites(d)|, 0
  {
    hide *;
    Coloured(g, id, d);
    if d.color[id] != White {
      SeenList(g, id, d);
      SameFollows(d, Visit(g, id, d), y, x);
    } else {
      var d1 := d.(color := d.color[id := Gray]);
      TurnsGray(id, d);
      ChildrenReady(g, id, d);
      ChildrenCalled(g, id, d1, a, x, y);
      StillBlack(d, id, x);
      SameFollows(d, d1, y, x);
      VisitAllFollows(g, Children(g, id), d1, a, x, y);
      VisitAllKeeps(g, Children(g, id), d1);
      VisitIs(g, id, d);
      var d2 := VisitAll(g, Children(g, id), d1);
      StillListed(g, d1, d2, x);
      ListFacts(g, d, d2, id, x, y);
      PushFollows(d2, id, y, x);
    }
  }

  lemma SeenList(g: GState, id: Id, d: Dfs)
    requires id in d.color && d.color[id] != White
    ensures Visit(g, id, d).list == d.list
  {
  }

  lemma SameFollows(d: Dfs, r: Dfs, y: Id, x: Id)
    requires r.list == d.list
    ensures Follows(r, y, x) <==> Follows(d, y, x)
  {
  }

  lemma StillBlack(d: Dfs, id: Id, x: Id)
    requires id in d.color && d.color[id] == White
    ensures IsBlack(d, x) <==> IsBlack(d.(color := d.color[id := Gray]), x)
  {
  }

  lemma StillListed(g: GState, d: Dfs, r: Dfs, x: Id)
    requires Advances(d, r) && Good(g, r)
    ensures IsBlack(d, x) ==> IsBlack(r, x) && x in r.list
  {
  }

  /** A node that has turned gray is not listed when its children have been. */
  lemma ListFacts(g: GState, d: Dfs, d2: Dfs, id: Id, x: Id, y: Id)
    requires Advances(d.(color := d.color[id := Gray]), d2) && Good(g, d2) && Follows(d2, y, x)
    ensures id !in d2.list && (id == x ==> y !in d2.list)
  {
    if y in d2.list {
      BeforeIn(d2.list, y, x);
    }
  }

  /** Only a calls for y, and only after x. */
  lemma ChildrenCalled(g: GState, id: Id, d: Dfs, a: Id, x: Id, y: Id)
    requires Mirror(g) && id in g && a in g && x in g[a].targets && y in g[a].targets && x != y && Favoured(g, a, y, x)
    requires OnlyUser(EdgesOf(g), a, y)
    ensures CalledAfter(Children(g, id), d, x, y)
  {
    hide Children, Mirror, Favoured, Before;
    ChildIsTarget(g, id, y);
    if id == a {
      FavouredLater(g, a, x, y);
    }
  }

  lemma {:induction false} VisitAllFollows(g: GState, ids: seq<Id>, d: Dfs, a: Id, x: Id, y: Id)
    requires Mirror(g) && Good(g, d) && Acyclic(EdgesOf(g))
    requires forall t :: t in ids ==> t in g && GraysLeadTo(g, d, t)
    requires OnlyUser(EdgesOf(g), a, y) && a in g && x in g[a].targets && y in g[a].targets
    requires x != y && Favoured(g, a, y, x)
    requires Follows(d, y, x) && CalledAfter(ids, d, x, y)
    ensures Follows(VisitAll(g, ids, d), y, x)
    decreases |Whites(d)|, |ids|
  {
    hide *;
    VisitAllIs(g, ids, d);
    if ids != [] {
      var d1 := Visit(g, ids[0], d);
      VisitKeeps(g, ids[0], d);
      WhitesShrink(d, d1);
      StillLead(g, ids, d, d1);
      CalledFirst(ids, d, x, y);
      VisitFollows(g, ids[0], d, a, x, y);
      DoneIsBlack(g, d, d1, ids[0], x);
      CalledStill(ids, d, d1, x, y);
      VisitAllFollows(g, ids[1..], d1, a, x, y);
    }
  }

  lemma CalledFirst(ids: seq<Id>, d: Dfs, x: Id, y: Id)
    requires ids != [] && CalledAfter(ids, d, x, y) && x != y
    ensures ids[0] == y ==> IsBlack(d, x)
  {
    if ids[0] == y && x in ids {
      var j :| 0 <= j < |ids| && ids[j] == x;
      assert Before(ids, y, x);
    }
  }

  lemma DoneIsBlack(g: GState, d: Dfs, d1: Dfs, id: Id, x: Id)
    requires Good(g, d1) && Acyclic(EdgesOf(g)) && Advances(d, d1) && Finished(d1, id)
    ensures IsBlack(d1, id) && (IsBlack(d, x) ==> IsBlack(d1, x))
  {
  }

  lemma CalledStill(ids: seq<Id>, d: Dfs, d1: Dfs, x: Id, y: Id)
    requires ids != [] && CalledAfter(ids, d, x, y)
    requires IsBlack(d1, ids[0]) && (IsBlack(d, x) ==> IsBlack(d1, x))
    ensures CalledAfter(ids[1..], d1, x, y)
  {
    assert ids == [ids[0]] + ids[1..];
    if y in ids[1..] && !IsBlack(d1, x) {
      BeforeHead(ids[0], ids[1..], y, x);
    }
  }

  /*** The main result ***/

  /** The root ranks below all other nodes, and reaches them. */
  ghost predicate IsRoot(g: GState, root: Id) {
    && root in g
    && (forall v :: v in g && v != root ==> PriorityOf(g, root) < PriorityOf(g, v))
    && (forall v :: v in g ==> Reach(EdgesOf(g), root, v))
  }

  /** Of two targets of a node, one that nothing else uses is listed in front of the other
      if its priority is higher, or the same and it is declared first; whatever order the
      nodes come in. */
  lemma FavouredFirst(g: GState, order: seq<Id>, root: Id, a: Id, x: Id, y: Id)
    requires Mirror(g) && AllNodesOnce(g, order) && Acyclic(EdgesOf(g)) && IsRoot(g, root)
    requires a in g && x in g[a].targets && y in g[a].targets && x != y
    requires OnlyUser(EdgesOf(g), a, y) && Favoured(g, a, y, x)
    ensures Before(SortFrom(g, order).list, y, x)
  {
    hide *;
    var ids, d := ByPriority(g, order), Start(g);
    SortIsTopological(g, order);
    StartIsGood(g);
    RootComesFirst(g, order, root);
    RootIsNotUsed(g, root, a, y);
    SortUnfolds(g, order);
    VisitAllIs(g, ids, d);
    var d1 := Visit(g, root, d);
    StartFollows(g, y, x);
    RootInGraph(g, root);
    VisitFollows(g, root, d, a, x, y);
    VisitKeeps(g, root, d);
    AllBelowBlack(g, root, d, d1);
    SortedMembersAll(g, order, ids);
    BlacksAreSkipped(g, ids[1..], d1);
    YIsListed(g, order, a, x, y);
  }

  lemma RootInGraph(g: GState, root: Id)
    requires IsRoot(g, root)
    ensures root in g
  {
  }

  lemma SortUnfolds(g: GState, order: seq<Id>)
    ensures SortFrom(g, order) == VisitAll(g, ByPriority(g, order), Start(g))
  {
  }

  lemma StartFollows(g: GState, y: Id, x: Id)
    ensures Follows(Start(g), y, x)
  {
  }

  lemma RootComesFirst(g: GState, order: seq<Id>, root: Id)
    requires AllNodesOnce(g, order) && IsRoot(g, root)
    ensures ByPriority(g, order) != [] && ByPriority(g, order)[0] == root
  {
    var ids := ByPriority(g, order);
    SortedMembers(g, order, root);
    ByPriorityIsStable(g, order, 0);
    hide ByPriority;
    var i :| 0 <= i < |ids| && ids[i] == root;
    if i > 0 {
      SortedMembers(g, order, ids[0]);
      assert PriorityOf(g, ids[0]) <= PriorityOf(g, ids[i]);
    }
  }

  /** The root is no target, as all else is below it. */
  lemma RootIsNotUsed(g: GState, root: Id, a: Id, y: Id)
    requires Mirror(g) && Acyclic(EdgesOf(g)) && IsRoot(g, root) && a in g && y in g[a].targets
    ensures root != y
  {
    if root == y {
      assert ListsItsEdges(g[a]) && (a, root) in EdgesOf(g);
      ReachRefl(EdgesOf(g), root);
      assert Plus(EdgesOf(g), a, root);
      ReachPlus(EdgesOf(g), root, a, root);
    }
  }

  /** Once the root is done, so is all below it. */
  lemma AllBelowBlack(g: GState, root: Id, d: Dfs, d1: Dfs)
    requires Mirror(g) && IsRoot(g, root) && Acyclic(EdgesOf(g)) && d == Start(g)
    requires Good(g, d1) && Finished(d1, root)
    ensures forall v :: v in g ==> IsBlack(d1, v)
  {
    var S := iset v | IsBlack(d1, v);
    forall v, t | (v, t) in EdgesOf(g) && v in S
      ensures t in S
    {
      assert v in d1.list;
      var i :| 0 <= i < |d1.list| && d1.list[i] == v;
      assert t in d1.list[i + 1..];
    }
    forall v | v in g
      ensures IsBlack(d1, v)
    {
      ReachClosed(EdgesOf(g), S, root, v);
    }
  }

  lemma BlacksAreSkipped(g: GState, ids: seq<Id>, d: Dfs)
    requires forall t :: t in ids ==> IsBlack(d, t)
    ensures VisitAll(g, ids, d) == d
  {
    VisitedIsSkipped(g, ids, d);
  }

  lemma SortedMembersAll(g: GState, order: seq<Id>, ids: seq<Id>)
    requires AllNodesOnce(g, order) && ids == ByPriority(g, order) && ids != []
    ensures forall t :: t in ids[1..] ==> t in g
  {
    RestIsMembers(g, order);
  }

  lemma YIsListed(g: GState, order: seq<Id>, a: Id, x: Id, y: Id)
    requires Mirror(g) && a in g && y in g[a].targets && AllNodesOnce(g, SortFrom(g, order).list)
    requires Follows(SortFrom(g, order), y, x)
    ensures Before(SortFrom(g, order).list, y, x)
  {
    hide SortFrom, Before;
    assert ListsItsEdges(g[a]);
    assert HasEdge(g, a, y) && HasSource(g, a, y);
  }
}
