/** Flattening the hierarchy of defaults that a module uses. */
module Defaults {
  import opened Wrappers
  import opened Digraph

  /** The defaults that modules and defaults list themselves. */
  type DefaultsMap = map<Id, seq<Id>>

  function ListOf(m: DefaultsMap, d: Id): seq<Id> {
    if d in m then m[d] else []
  }

  ghost function Uses(m: DefaultsMap): Edges {
    set d, x | d in m && x in m[d] :: (d, x)
  }

  ghost function Names(m: DefaultsMap): set<Id> {
    set d, x | d in m && x in m[d] :: x
  }

  ghost function Unvisited(m: DefaultsMap, visited: seq<Id>): nat {
    |Names(m) - set x | x in visited|
  }

  lemma Visiting(m: DefaultsMap, visited: seq<Id>, d: Id)
    requires d in Names(m) && d !in visited
    ensures Unvisited(m, visited + [d]) < Unvisited(m, visited)
  {
    var A, B := Names(m) - (set x | x in visited), Names(m) - set x | x in visited + [d];
    assert d in A && d !in B;
    assert B <= A - {d};
    SubsetSize(B, A - {d});
  }

  /** The listed defaults, each after those it uses itself. None when one of them is met
      again below itself. */
  ghost function Expand(m: DefaultsMap, listed: seq<Id>, visited: seq<Id>): Option<seq<Id>>
    requires forall d :: d in listed ==> d in Names(m)
    decreases Unvisited(m, visited), |listed|
  {
    if listed == [] then Some([])
    else
      var n := |listed| - 1;
      match Expand(m, listed[..n], visited)
      case None => None
      case Some(before) =>
        var d := listed[n];
        if d in visited then None
        else
          Visiting(m, visited, d);
          match Expand(m, ListOf(m, d), visited + [d])
          case None => None
          case Some(below) => Some(before + below + [d])
  }

  ghost function Expansion(m: DefaultsMap, d: Id): Option<seq<Id>> {
    Expand(m, ListOf(m, d), [])
  }

  method ExpandDefault(m: DefaultsMap, d: Id, visited: seq<Id>) returns (r: Option<seq<Id>>)
    ensures r == Expand(m, ListOf(m, d), visited)
    decreases Unvisited(m, visited)
  {
    var listed := ListOf(m, d);
    ListedAreNames(m, d);
    hide Names, ListOf, Unvisited, Expand;
    var defaults := [];
    var i := 0;
    ExpandNone(m, listed[..0], visited);
    while i < |listed|
      invariant 0 <= i <= |listed|
      invariant Expand(m, listed[..i], visited) == Some(defaults)
    {
      ExpandStep(m, listed, visited, i);
      WholeList(m, listed, visited, i + 1);
      if listed[i] in visited {
        return None;
      }
      Visiting(m, visited, listed[i]);
      var below := ExpandDefault(m, listed[i], visited + [listed[i]]);
      if below.None? {
        return None;
      }
      defaults := defaults + below.value + [listed[i]];
      i := i + 1;
    }
    assert listed[..i] == listed;
    return Some(defaults);
  }

  lemma ExpandNone(m: DefaultsMap, listed: seq<Id>, visited: seq<Id>)
    requires listed == []
    ensures Expand(m, listed, visited) == Some([])
  {
  }

  /** The expansion up to the next listed default. */
  lemma ExpandStep(m: DefaultsMap, listed: seq<Id>, visited: seq<Id>, i: nat)
    requires i < |listed| && forall d :: d in listed ==> d in Names(m)
    ensures var d := listed[i];
            Expand(m, listed[..i], visited).Some? ==>
              Expand(m, listed[..i + 1], visited) ==
              if d in visited || Expand(m, ListOf(m, d), visited + [d]).None? then None
              else Some(Expand(m, listed[..i], visited).value + Expand(m, ListOf(m, d), visited + [d]).value + [d])
  {
    hide Unvisited, Names;
    ListedAreNames(m, listed[i]);
    assert listed[..i + 1][..i] == listed[..i];
  }

  lemma {:induction false} WholeList(m: DefaultsMap, listed: seq<Id>, visited: seq<Id>, i: nat)
    requires i <= |listed| && forall d :: d in listed ==> d in Names(m)
    ensures Expand(m, listed[..i], visited).None? ==> Expand(m, listed, visited).None?
    decreases |listed| - i
  {
    if i < |listed| {
      WholeList(m, listed, visited, i + 1);
      assert listed[..i + 1][..i] == listed[..i];
    } else {
      assert listed[..i] == listed;
    }
  }

  /*** When it fails ***/

  ghost predicate LeadsTo(m: DefaultsMap, listed: seq<Id>, x: Id) {
    exists d :: d in listed && Reach(Uses(m), d, x)
  }

  lemma {:induction false} ExpandFails(m: DefaultsMap, listed: seq<Id>, visited: seq<Id>)
    requires forall d :: d in listed ==> d in Names(m)
    requires forall x, d :: x in visited && d in listed ==> Plus(Uses(m), x, d)
    requires Expand(m, listed, visited).None?
    ensures exists v :: LeadsTo(m, listed, v) && Plus(Uses(m), v, v)
    decreases Unvisited(m, visited), |listed|
  {
    var E := Uses(m);
    var n := |listed| - 1;
    var d := listed[n];
    hide Uses;
    if Expand(m, listed[..n], visited).None? {
      ExpandFails(m, listed[..n], visited);
      var v :| LeadsTo(m, listed[..n], v) && Plus(E, v, v);
      var c :| c in listed[..n] && Reach(E, c, v);
      assert LeadsTo(m, listed, v);
    } else {
      ReachRefl(E, d);
      assert LeadsTo(m, listed, d);
      if d !in visited {
        forall x, c | x in visited + [d] && c in ListOf(m, d)
          ensures Plus(E, x, c)
        {
          UsesListed(m, d, c);
          ReachEdge(E, d, c);
          ReachRefl(E, c);
          if x != d {
            PlusReach(E, x, d, c);
          }
        }
        Visiting(m, visited, d);
        ExpandFails(m, ListOf(m, d), visited + [d]);
        var v :| LeadsTo(m, ListOf(m, d), v) && Plus(E, v, v);
        var c :| c in ListOf(m, d) && Reach(E, c, v);
        UsesListed(m, d, c);
        ReachStep(E, d, c, v);
        assert LeadsTo(m, listed, v);
      }
    }
  }

  lemma UsesListed(m: DefaultsMap, d: Id, c: Id)
    ensures c in ListOf(m, d) <==> (d, c) in Uses(m)
  {
  }

  lemma {:induction false} ExpandEach(m: DefaultsMap, listed: seq<Id>, visited: seq<Id>, d: Id)
    requires forall x :: x in listed ==> x in Names(m)
    requires Expand(m, listed, visited).Some? && d in listed
    ensures d !in visited && Expand(m, ListOf(m, d), visited + [d]).Some?
    decreases |listed|
  {
    var n := |listed| - 1;
    if d != listed[n] {
      ExpandEach(m, listed[..n], visited, d);
    }
  }

  /** Where a walk leads from a default that could be expanded can be expanded too, with all
      that was visited on the way. */
  lemma {:induction false} ExpandAlong(m: DefaultsMap, d: Id, visited: seq<Id>, p: seq<Id>, w: Id)
    returns (seen: seq<Id>)
    requires d in visited && Expand(m, ListOf(m, d), visited).Some? && WalkFromTo(Uses(m), p, d, w)
    ensures w in seen && (forall x :: x in visited ==> x in seen) && Expand(m, ListOf(m, w), seen).Some?
    ensures |p| > 1 ==> w !in visited
    decreases |p|
  {
    if |p| == 1 {
      seen := visited;
    } else {
      WalkTail(Uses(m), p, d, w);
      var c := p[1];
      UsesListed(m, d, c);
      ExpandEach(m, ListOf(m, d), visited, c);
      hide WalkFromTo;
      seen := ExpandAlong(m, c, visited + [c], p[1..], w);
      if |p| == 2 {
        hide *;
        LastOfTwo(m, p, d, w);
      }
    }
  }

  lemma LastOfTwo(m: DefaultsMap, p: seq<Id>, d: Id, w: Id)
    requires WalkFromTo(Uses(m), p, d, w) && |p| == 2
    ensures w == p[1]
  {
  }

  lemma NotBelowItself(m: DefaultsMap, v: Id, seen: seq<Id>)
    requires v in seen && Expand(m, ListOf(m, v), seen).Some?
    ensures !Plus(Uses(m), v, v)
  {
    hide *;
    var E := Uses(m);
    if Plus(E, v, v) {
      var b, q := FirstStep(E, v, v);
      UsesListed(m, v, b);
      ListedAreNames(m, v);
      ExpandEach(m, ListOf(m, v), seen, b);
      var _ := ExpandAlong(m, b, seen + [b], q, v);
      OneOnly(E, q, b, v);
    }
  }

  lemma FirstStep(E: Edges, a: Id, b: Id) returns (c: Id, p: seq<Id>)
    requires Plus(E, a, b)
    ensures (a, c) in E && WalkFromTo(E, p, c, b)
  {
    c :| (a, c) in E && Reach(E, c, b);
    p :| WalkFromTo(E, p, c, b);
  }

  lemma ListedAreNames(m: DefaultsMap, d: Id)
    ensures forall x :: x in ListOf(m, d) ==> x in Names(m)
  {
  }

  lemma NoCycleExpanded(m: DefaultsMap, d: Id, v: Id)
    requires Expansion(m, d).Some? && Plus(Uses(m), d, v)
    ensures !Plus(Uses(m), v, v)
  {
    hide Uses, WalkFromTo, Expand, Plus, ListOf;
    var c, p := FirstStep(Uses(m), d, v);
    UsesListed(m, d, c);
    ListedAreNames(m, d);
    ExpandEach(m, ListOf(m, d), [], c);
    assert [] + [c] == [c];
    var seen := ExpandAlong(m, c, [c], p, v);
    NotBelowItself(m, v, seen);
  }

  lemma OneOnly(E: Edges, q: seq<Id>, a: Id, b: Id)
    requires WalkFromTo(E, q, a, b)
    ensures |q| <= 1 ==> a == b
  {
  }

  /** The expansion fails exactly when it comes to a cycle of defaults. */
  lemma ExpansionFails(m: DefaultsMap, d: Id)
    ensures Expansion(m, d).None? <==> exists v :: Plus(Uses(m), d, v) && Plus(Uses(m), v, v)
  {
    if Expansion(m, d).None? {
      ExpandFails(m, ListOf(m, d), []);
      var v :| LeadsTo(m, ListOf(m, d), v) && Plus(Uses(m), v, v);
      var c :| c in ListOf(m, d) && Reach(Uses(m), c, v);
      UsesListed(m, d, c);
      assert Plus(Uses(m), d, v);
    } else {
      hide Uses, Expansion, Plus;
      forall v | Plus(Uses(m), d, v)
        ensures !Plus(Uses(m), v, v)
      {
        NoCycleExpanded(m, d, v);
      }
    }
  }

  /*** What it lists ***/

  lemma LeadsToOn(m: DefaultsMap, listed: seq<Id>, d: Id, x: Id)
    ensures LeadsTo(m, listed + [d], x) <==> LeadsTo(m, listed, x) || x == d || LeadsTo(m, ListOf(m, d), x)
  {
    var E := Uses(m);
    hide Uses;
    ReachCases(E, d, x);
    ReachRefl(E, d);
    if LeadsTo(m, listed + [d], x) {
      var c :| c in listed + [d] && Reach(E, c, x);
      if c !in listed && x != d {
        var b :| (d, b) in E && Reach(E, b, x);
        UsesListed(m, d, b);
      }
    }
    if LeadsTo(m, listed, x) {
      var c :| c in listed && Reach(E, c, x);
      assert c in listed + [d];
    }
    if LeadsTo(m, ListOf(m, d), x) {
      var c :| c in ListOf(m, d) && Reach(E, c, x);
      UsesListed(m, d, c);
      ReachStep(E, d, c, x);
    }
    assert d in listed + [d];
  }

  lemma {:induction false} ExpandHolds(m: DefaultsMap, listed: seq<Id>, visited: seq<Id>, x: Id)
    requires forall d :: d in listed ==> d in Names(m)
    requires Expand(m, listed, visited).Some?
    ensures x in Expand(m, listed, visited).value <==> LeadsTo(m, listed, x)
    decreases Unvisited(m, visited), |listed|
  {
    if listed != [] {
      var n := |listed| - 1;
      var d := listed[n];
      Visiting(m, visited, d);
      ExpandHolds(m, listed[..n], visited, x);
      ExpandHolds(m, ListOf(m, d), visited + [d], x);
      hide LeadsTo;
      LeadsToOn(m, listed[..n], d, x);
      assert listed[..n] + [d] == listed;
    }
  }

  /** Every entry is listed itself or stands before one that lists it. */
  ghost predicate BeforeLister(m: DefaultsMap, listed: seq<Id>, L: seq<Id>) {
    forall i :: 0 <= i < |L| ==> L[i] in listed || HasListerAfter(m, L, i)
  }

  ghost predicate HasListerAfter(m: DefaultsMap, L: seq<Id>, i: nat)
    requires i < |L|
  {
    exists j :: i < j < |L| && L[i] in ListOf(m, L[j])
  }

  lemma BeforeListerOn(m: DefaultsMap, listed: seq<Id>, before: seq<Id>, below: seq<Id>, d: Id)
    requires BeforeLister(m, listed, before) && BeforeLister(m, ListOf(m, d), below)
    ensures BeforeLister(m, listed + [d], before + below + [d])
  {
    hide ListOf;
    var L := before + below + [d];
    var k := |before|;
    forall i | 0 <= i < |L|
      ensures L[i] in listed + [d] || HasListerAfter(m, L, i)
    {
      if i < k {
        if before[i] !in listed {
          var j :| i < j < |before| && before[i] in ListOf(m, before[j]);
          assert L[j] == before[j] && L[i] == before[i];
        }
      } else if i < |L| - 1 {
        assert L[i] == below[i - k];
        if below[i - k] in ListOf(m, d) {
          assert L[|L| - 1] == d;
        } else {
          assert HasListerAfter(m, below, i - k);
          var j :| i - k < j < |below| && below[i - k] in ListOf(m, below[j]);
          assert L[j + k] == below[j];
        }
      }
    }
  }

  lemma {:induction false} ExpandOrders(m: DefaultsMap, listed: seq<Id>, visited: seq<Id>)
    requires forall d :: d in listed ==> d in Names(m)
    requires Expand(m, listed, visited).Some?
    ensures BeforeLister(m, listed, Expand(m, listed, visited).value)
    decreases Unvisited(m, visited), |listed|
  {
    hide BeforeLister;
    if listed != [] {
      var n := |listed| - 1;
      var d := listed[n];
      Visiting(m, visited, d);
      ExpandOrders(m, listed[..n], visited);
      ExpandOrders(m, ListOf(m, d), visited + [d]);
      BeforeListerOn(m, listed[..n], Expand(m, listed[..n], visited).value,
                     Expand(m, ListOf(m, d), visited + [d]).value, d);
      assert listed[..n] + [d] == listed;
    } else {
      NothingListed(m, listed);
    }
  }

  lemma NothingListed(m: DefaultsMap, listed: seq<Id>)
    ensures BeforeLister(m, listed, [])
  {
  }

  /*** Keeping the last of each ***/

  function KeepLast(L: seq<Id>): seq<Id> {
    if L == [] then []
    else if L[0] in L[1..] then KeepLast(L[1..])
    else [L[0]] + KeepLast(L[1..])
  }

  /** Where x last stands in L. */
  function LastAt(L: seq<Id>, x: Id): (i: int)
    ensures x in L ==> 0 <= i < |L| && L[i] == x && x !in L[i + 1..]
    ensures x !in L ==> i == -1
  {
    if L == [] then -1
    else if L[|L| - 1] == x then |L| - 1
    else LastAt(L[..|L| - 1], x)
  }

  ghost predicate LastsIncrease(L: seq<Id>, K: seq<Id>) {
    forall i, j :: 0 <= i < j < |K| ==> LastAt(L, K[i]) < LastAt(L, K[j])
  }

  lemma Later(L: seq<Id>, i: int, k: int)
    ensures 0 <= i < k < |L| ==> L[k] in L[i + 1..]
  {
    if 0 <= i < k < |L| {
      assert L[i + 1..][k - i - 1] == L[k];
    }
  }

  lemma LastAtIs(L: seq<Id>, x: Id, i: nat)
    requires i < |L| && L[i] == x && x !in L[i + 1..]
    ensures LastAt(L, x) == i
  {
    hide *;
    var j := LastAt(L, x);
    Later(L, i, j);
    Later(L, j, i);
  }

  lemma LastAtTail(L: seq<Id>, x: Id)
    requires L != [] && x in L[1..]
    ensures LastAt(L, x) == LastAt(L[1..], x) + 1
  {
    var T := L[1..];
    var i := LastAt(T, x);
    hide *;
    assert T[i + 1..] == L[i + 2..];
    LastAtIs(L, x, i + 1);
  }

  lemma LastsInTail(L: seq<Id>, K: seq<Id>)
    requires L != [] && LastsIncrease(L[1..], K) && forall x :: x in K ==> x in L[1..]
    ensures LastsIncrease(L, K)
  {
    hide LastAt;
    forall i, j | 0 <= i < j < |K|
      ensures LastAt(L, K[i]) < LastAt(L, K[j])
    {
      LastAtTail(L, K[i]);
      LastAtTail(L, K[j]);
    }
  }

  lemma LastsFromHead(L: seq<Id>, K: seq<Id>)
    requires L != [] && L[0] !in L[1..] && LastsIncrease(L, K) && forall x :: x in K ==> x in L[1..]
    ensures LastsIncrease(L, [L[0]] + K)
  {
    hide LastAt;
    var H := [L[0]] + K;
    LastAtIs(L, L[0], 0);
    forall i, j | 0 <= i < j < |H|
      ensures LastAt(L, H[i]) < LastAt(L, H[j])
    {
      assert H[j] == K[j - 1];
      if i > 0 {
        assert H[i] == K[i - 1];
      } else {
        LastAtTail(L, H[j]);
        assert LastAt(L[1..], H[j]) >= 0;
      }
    }
  }

  /** Each entry is kept once, and in the order of their last places. */
  lemma {:induction false} KeepLastIs(L: seq<Id>)
    ensures forall x :: x in KeepLast(L) <==> x in L
    ensures LastsIncrease(L, KeepLast(L))
  {
    hide LastsIncrease;
    if L == [] {
      NoLasts(L);
    } else {
      KeepLastIs(L[1..]);
      LastsInTail(L, KeepLast(L[1..]));
      if L[0] !in L[1..] {
        LastsFromHead(L, KeepLast(L[1..]));
      }
    }
  }

  lemma NoLasts(L: seq<Id>)
    ensures LastsIncrease(L, [])
  {
  }

  lemma KeptBeforeLister(m: DefaultsMap, listed: seq<Id>, L: seq<Id>, K: seq<Id>)
    requires BeforeLister(m, listed, L) && LastsIncrease(L, K) && (forall x :: x in K <==> x in L)
    ensures BeforeLister(m, listed, K)
  {
    hide ListOf, LastAt;
    forall i | 0 <= i < |K| && K[i] !in listed
      ensures HasListerAfter(m, K, i)
    {
      var a := LastAt(L, K[i]);
      assert K[i] in L;
      assert HasListerAfter(m, L, a);
      var b :| a < b < |L| && L[a] in ListOf(m, L[b]);
      assert L[b] in K;
      var j :| 0 <= j < |K| && K[j] == L[b];
      LastAtLeast(L, b);
    }
  }

  lemma LastAtLeast(L: seq<Id>, b: nat)
    requires b < |L|
    ensures b <= LastAt(L, L[b])
  {
    var j := LastAt(L, L[b]);
    hide *;
    Later(L, j, b);
  }

  /** The defaults of a module, flattened, without repeats. It fails when a cycle of
      defaults is met. Otherwise every default the module leads to is there once, listed by
      the module itself or before one that lists it, in the order of their last places in
      the expansion. */
  method Flatten(m: DefaultsMap, d: Id) returns (r: Option<seq<Id>>)
    ensures r.None? <==> exists v :: Plus(Uses(m), d, v) && Plus(Uses(m), v, v)
    ensures r.Some? ==> forall x :: x in r.value <==> Plus(Uses(m), d, x)
    ensures r.Some? ==> forall i, j :: 0 <= i < j < |r.value| ==> r.value[i] != r.value[j]
    ensures r.Some? ==> BeforeLister(m, ListOf(m, d), r.value)
    ensures r.Some? ==> Expansion(m, d).Some? && LastsIncrease(Expansion(m, d).value, r.value)
  {
    hide *;
    ExpansionFails(m, d);
    ExpansionIs(m, d);
    var flat := ExpandDefault(m, d, []);
    if flat.None? {
      return None;
    }
    var L := flat.value;
    var defaults := [];
    var i := 0;
    assert L[0..] == L;
    while i < |L|
      invariant 0 <= i <= |L|
      invariant defaults + KeepLast(L[i..]) == KeepLast(L)
    {
      KeepLastStep(L, i);
      if L[i] !in L[i + 1..] {
        assert defaults + ([L[i]] + KeepLast(L[i + 1..])) == defaults + [L[i]] + KeepLast(L[i + 1..]);
        defaults := defaults + [L[i]];
      }
      i := i + 1;
    }
    assert L[i..] == [];
    KeepLastStep([""], 0);
    assert defaults == KeepLast(L);
    KeepLastIs(L);
    KeptBeforeLister(m, ListOf(m, d), L, defaults);
    LastsDiffer(L, defaults);
    return Some(defaults);
  }

  lemma KeepLastStep(L: seq<Id>, i: nat)
    requires i < |L|
    ensures KeepLast(L[i..]) == if L[i] in L[i + 1..] then KeepLast(L[i + 1..]) else [L[i]] + KeepLast(L[i + 1..])
    ensures KeepLast([]) == []
  {
    assert L[i..][1..] == L[i + 1..];
  }

  lemma LastsDiffer(L: seq<Id>, K: seq<Id>)
    requires LastsIncrease(L, K)
    ensures forall i, j :: 0 <= i < j < |K| ==> K[i] != K[j]
  {
    hide LastAt;
  }

  lemma ExpansionIs(m: DefaultsMap, d: Id)
    ensures Expansion(m, d) == Expand(m, ListOf(m, d), [])
    ensures Expansion(m, d).Some? ==>
              && BeforeLister(m, ListOf(m, d), Expansion(m, d).value)
              && forall x :: x in Expansion(m, d).value <==> Plus(Uses(m), d, x)
  {
    hide Expand, BeforeLister, ListOf, Uses, LeadsTo;
    ListedAreNames(m, d);
    if Expansion(m, d).Some? {
      ExpandOrders(m, ListOf(m, d), []);
      forall x
        ensures x in Expansion(m, d).value <==> Plus(Uses(m), d, x)
      {
        ExpandHolds(m, ListOf(m, d), [], x);
        LeadsIsPlus(m, d, x);
      }
    }
  }

  lemma LeadsIsPlus(m: DefaultsMap, d: Id, x: Id)
    ensures LeadsTo(m, ListOf(m, d), x) <==> Plus(Uses(m), d, x)
  {
    hide Uses, ListOf;
    if LeadsTo(m, ListOf(m, d), x) {
      var c :| c in ListOf(m, d) && Reach(Uses(m), c, x);
      UsesListed(m, d, c);
    }
    if Plus(Uses(m), d, x) {
      var c :| (d, c) in Uses(m) && Reach(Uses(m), c, x);
      UsesListed(m, d, c);
    }
  }
}
