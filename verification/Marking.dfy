/** Which modules a build requires: a walker for every module follows dependencies and marks
    what it finds, all walkers at once, sharing the marks. */
module Marking {
  import opened Digraph
  import opened Powers

  /** Modules that are not enableable are defaults, aliases, or of a kind that is never
      disabled. */
  datatype Module = Module(enableable: bool, isDefaults: bool, isAlias: bool,
                           enabled: bool, builtByDefault: bool, deps: seq<Id>)

  type Modules = map<Id, Module>

  const NO_MODULE := Module(false, false, false, false, false, [])

  function Get(mods: Modules, x: Id): Module {
    if x in mods then mods[x] else NO_MODULE
  }

  /** Walks start from enabled modules that are built by default. */
  predicate Starts(mods: Modules, x: Id) {
    x in mods &&
    if mods[x].enableable then mods[x].enabled && mods[x].builtByDefault
    else !mods[x].isDefaults && !mods[x].isAlias
  }

  /** Walks go on through everything but disabled modules. */
  predicate Follows(mods: Modules, d: Id) {
    Get(mods, d).enableable ==> Get(mods, d).enabled
  }

  ghost function DepEdges(mods: Modules): Edges {
    set x, d | x in mods && d in mods[x].deps :: (x, d)
  }

  /** The dependencies that walks go along. */
  ghost function WalkEdges(mods: Modules): Edges {
    set x, d | x in mods && d in mods[x].deps && Follows(mods, d) :: (x, d)
  }

  ghost predicate Found(mods: Modules, x: Id) {
    exists s :: Starts(mods, s) && Reach(WalkEdges(mods), s, x)
  }

  /** The modules a build requires: what can be found from the start modules. */
  ghost function Required(mods: Modules): set<Id> {
    set x | x in mods && mods[x].enableable && Found(mods, x)
  }

  /*** The walkers ***/

  /** A walker has a list of dependencies to visit. Between finding one that is not marked
      and marking it, others may take their turns. */
  datatype Walker =
    | Idle
    | Walking(todo: seq<Id>, seen: set<Id>)
    | AboutToMark(next: Id, todo: seq<Id>, seen: set<Id>)

  /** The walker of each listed module, and the marks they share. */
  datatype Crew = Crew(required: set<Id>, walkers: seq<Walker>)

  function Enter(mods: Modules, d: Id, todo: seq<Id>, seen: set<Id>): Walker {
    if d in seen then Walking(todo, seen) else Walking(Get(mods, d).deps + todo, seen + {d})
  }

  predicate Active(c: Crew, i: nat) {
    i < |c.walkers| && c.walkers[i] != Walking([], Seen(c.walkers[i]))
  }

  function Seen(w: Walker): set<Id> {
    if w.Idle? then {} else w.seen
  }

  function Todo(w: Walker): seq<Id> {
    match w
    case Idle => []
    case Walking(todo, _) => todo
    case AboutToMark(d, todo, _) => [d] + todo
  }

  /** One step of walker i. */
  function Step(mods: Modules, ids: seq<Id>, c: Crew, i: nat): Crew
    requires |ids| == |c.walkers| && Active(c, i)
  {
    match c.walkers[i]
    case Idle =>
      if !Starts(mods, ids[i]) then c.(walkers := c.walkers[i := Walking([], {})])
      else
        Crew(c.required + if Get(mods, ids[i]).enableable then {ids[i]} else {},
             c.walkers[i := Walking(Get(mods, ids[i]).deps, {})])
    case Walking(todo, seen) =>
      var d, rest := todo[0], todo[1..];
      if !Get(mods, d).enableable then c.(walkers := c.walkers[i := Enter(mods, d, rest, seen)])
      else if d in c.required || !Get(mods, d).enabled then c.(walkers := c.walkers[i := Walking(rest, seen)])
      else c.(walkers := c.walkers[i := AboutToMark(d, rest, seen)])
    case AboutToMark(d, todo, seen) =>
      Crew(c.required + {d}, c.walkers[i := Enter(mods, d, todo, seen)])
  }

  function Start(ids: seq<Id>): Crew {
    Crew({}, seq(|ids|, _ => Idle))
  }

  /** c after the walkers take turns in the given order. */
  ghost predicate Reaches(mods: Modules, ids: seq<Id>, a: Crew, turns: seq<nat>, b: Crew)
    requires |ids| == |a.walkers|
    decreases |turns|
  {
    if turns == [] then a == b
    else Active(a, turns[0]) && Reaches(mods, ids, Step(mods, ids, a, turns[0]), turns[1..], b)
  }

  predicate Finished(c: Crew) {
    forall i | 0 <= i < |c.walkers| :: !Active(c, i)
  }

  /*** What holds at every moment ***/

  /** Walker i has started or been through x. */
  ghost predicate EnteredBy(mods: Modules, ids: seq<Id>, c: Crew, i: nat, x: Id)
    requires |ids| == |c.walkers| && i < |ids|
  {
    x in Seen(c.walkers[i]) || (x == ids[i] && !c.walkers[i].Idle? && Starts(mods, x))
  }

  ghost predicate Entered(mods: Modules, ids: seq<Id>, c: Crew, x: Id)
    requires |ids| == |c.walkers|
  {
    x in c.required || exists i :: 0 <= i < |ids| && EnteredBy(mods, ids, c, i, x)
  }

  ghost predicate Pending(c: Crew, d: Id) {
    exists i :: 0 <= i < |c.walkers| && d in Todo(c.walkers[i])
  }

  /** What a walk goes on to from something entered has been entered too or is on someone's
      list. */
  ghost predicate Covered(mods: Modules, ids: seq<Id>, c: Crew)
    requires |ids| == |c.walkers|
  {
    forall x, d :: Entered(mods, ids, c, x) && (x, d) in WalkEdges(mods) ==> Entered(mods, ids, c, d) || Pending(c, d)
  }

  /** d is a dependency of something found. */
  ghost predicate Listed(mods: Modules, d: Id) {
    exists x :: Found(mods, x) && (x, d) in DepEdges(mods)
  }

  ghost predicate Sourced(mods: Modules, ids: seq<Id>, c: Crew)
    requires |ids| == |c.walkers|
  {
    && (forall x :: Entered(mods, ids, c, x) ==> Found(mods, x))
    && (forall d :: Pending(c, d) ==> Listed(mods, d))
    && (forall i :: 0 <= i < |ids| && c.walkers[i].AboutToMark? ==>
          Get(mods, c.walkers[i].next).enableable && Follows(mods, c.walkers[i].next))
  }

  ghost predicate Marked(mods: Modules, ids: seq<Id>, c: Crew)
    requires |ids| == |c.walkers|
  {
    && (forall x :: x in c.required ==> Get(mods, x).enableable)
    && (forall x :: Entered(mods, ids, c, x) && Get(mods, x).enableable ==> x in c.required)
  }

  ghost predicate Sane(mods: Modules, ids: seq<Id>, c: Crew) {
    |ids| == |c.walkers| && Covered(mods, ids, c) && Sourced(mods, ids, c) && Marked(mods, ids, c)
  }

  lemma FoundOn(mods: Modules, x: Id, d: Id)
    requires Found(mods, x) && (x, d) in WalkEdges(mods)
    ensures Found(mods, d)
  {
    var s :| Starts(mods, s) && Reach(WalkEdges(mods), s, x);
    ReachEdge(WalkEdges(mods), x, d);
    ReachTrans(WalkEdges(mods), s, x, d);
  }

  lemma ListedIsFound(mods: Modules, d: Id)
    requires Listed(mods, d) && Follows(mods, d)
    ensures Found(mods, d)
  {
    var x :| Found(mods, x) && (x, d) in DepEdges(mods);
    FoundOn(mods, x, d);
  }

  lemma StartIsFound(mods: Modules, x: Id)
    requires Starts(mods, x)
    ensures Found(mods, x)
  {
    ReachRefl(WalkEdges(mods), x);
  }

  lemma StartIsSane(mods: Modules, ids: seq<Id>)
    ensures Sane(mods, ids, Start(ids))
  {
    hide WalkEdges, DepEdges, Found, Starts, Get;
  }

  /** From a to b, walker i enters x, drops the first of its list, and lists more. */
  datatype Move = Move(entered: set<Id>, dropped: set<Id>, listed: set<Id>)

  ghost predicate Moves(mods: Modules, ids: seq<Id>, a: Crew, b: Crew, m: Move)
    requires |ids| == |a.walkers|
  {
    && |b.walkers| == |ids|
    && (forall x :: Entered(mods, ids, b, x) <==> Entered(mods, ids, a, x) || x in m.entered)
    && (forall d :: Pending(b, d) ==> Pending(a, d) || d in m.listed)
    && (forall d :: d in m.listed || (Pending(a, d) && d !in m.dropped) ==> Pending(b, d))
    && (forall d :: d in m.dropped ==> Pending(a, d))
  }

  /** The move lists what it enters leads to, and drops only what has been entered or is
      disabled. */
  ghost predicate GoodMove(mods: Modules, ids: seq<Id>, a: Crew, m: Move)
    requires |ids| == |a.walkers|
  {
    && (forall x, d :: x in m.entered && !Entered(mods, ids, a, x) && (x, d) in DepEdges(mods) ==> d in m.listed)
    && (forall d :: d in m.dropped ==> d in m.entered || Entered(mods, ids, a, d) || !Follows(mods, d))
    && (forall x :: x in m.entered ==> Starts(mods, x) || (Pending(a, x) && Follows(mods, x)))
    && (forall d :: d in m.listed ==> exists x :: x in m.entered && (x, d) in DepEdges(mods))
  }

  lemma MoveCovers(mods: Modules, ids: seq<Id>, a: Crew, b: Crew, m: Move)
    requires |ids| == |a.walkers| && Covered(mods, ids, a)
    requires Moves(mods, ids, a, b, m) && GoodMove(mods, ids, a, m)
    ensures Covered(mods, ids, b)
  {
    hide Entered, Pending, Starts;
    forall x, d | Entered(mods, ids, b, x) && (x, d) in WalkEdges(mods)
      ensures Entered(mods, ids, b, d) || Pending(b, d)
    {
      assert (x, d) in DepEdges(mods);
      if Entered(mods, ids, a, x) {
        assert Entered(mods, ids, a, d) || Pending(a, d);
      }
    }
  }

  lemma MoveIsSourced(mods: Modules, ids: seq<Id>, a: Crew, b: Crew, m: Move)
    requires |ids| == |a.walkers| && Sourced(mods, ids, a)
    requires Moves(mods, ids, a, b, m) && GoodMove(mods, ids, a, m)
    ensures forall x :: Entered(mods, ids, b, x) ==> Found(mods, x)
    ensures forall d :: Pending(b, d) ==> Listed(mods, d)
  {
    hide Entered, Pending, Starts, Found, Follows, DepEdges, WalkEdges;
    forall x | Entered(mods, ids, b, x)
      ensures Found(mods, x)
    {
      if !Entered(mods, ids, a, x) {
        if Starts(mods, x) {
          StartIsFound(mods, x);
        } else {
          ListedIsFound(mods, x);
        }
      }
    }
    forall d | Pending(b, d)
      ensures Listed(mods, d)
    {
      if !Pending(a, d) {
        var x :| x in m.entered && (x, d) in DepEdges(mods);
        assert Entered(mods, ids, b, x);
      }
    }
  }

  /** The move that a step is. */
  ghost function MoveOf(mods: Modules, ids: seq<Id>, c: Crew, i: nat): Move
    requires |ids| == |c.walkers| && Active(c, i)
  {
    match c.walkers[i]
    case Idle => if Starts(mods, ids[i]) then Entering(mods, ids[i], {}) else Move({}, {}, {})
    case Walking(todo, seen) =>
      var d := todo[0];
      if !Get(mods, d).enableable then
        if d in seen then Move({}, {d}, {}) else Entering(mods, d, {d})
      else if d in c.required || !Get(mods, d).enabled then Move({}, {d}, {})
      else Move({}, {}, {})
    case AboutToMark(d, todo, seen) => if d in seen then Move({d}, {d}, {}) else Entering(mods, d, {d})
  }

  function Entering(mods: Modules, x: Id, dropped: set<Id>): Move {
    Move({x}, dropped, set d | d in Get(mods, x).deps)
  }

  /** One walker is replaced, and the marks grow. */
  ghost predicate Replaces(a: Crew, b: Crew, i: nat, w: Walker, marks: set<Id>) {
    i < |a.walkers| && b == Crew(a.required + marks, a.walkers[i := w])
  }

  lemma ReplacePending(a: Crew, b: Crew, i: nat, w: Walker, marks: set<Id>, m: Move)
    requires Replaces(a, b, i, w, marks)
    requires forall d :: d in Todo(w) ==> d in Todo(a.walkers[i]) || d in m.listed
    requires forall d :: d in m.listed || (d in Todo(a.walkers[i]) && d !in m.dropped) ==> d in Todo(w)
    requires forall d :: d in m.dropped ==> d in Todo(a.walkers[i])
    ensures forall d :: Pending(b, d) ==> Pending(a, d) || d in m.listed
    ensures forall d :: d in m.listed || (Pending(a, d) && d !in m.dropped) ==> Pending(b, d)
    ensures forall d :: d in m.dropped ==> Pending(a, d)
  {
    hide Todo;
    assert forall j :: 0 <= j < |a.walkers| && j != i ==> b.walkers[j] == a.walkers[j];
    assert b.walkers[i] == w;
    forall d | Pending(a, d) && d !in m.dropped
      ensures Pending(b, d)
    {
      var j :| 0 <= j < |a.walkers| && d in Todo(a.walkers[j]);
      assert d in Todo(b.walkers[j]);
    }
  }

  lemma ReplaceEntered(mods: Modules, ids: seq<Id>, a: Crew, b: Crew, i: nat, w: Walker, marks: set<Id>, m: Move)
    requires |ids| == |a.walkers| && Replaces(a, b, i, w, marks)
    requires marks <= m.entered && !w.Idle?
    requires forall x :: x in m.entered ==> x in marks || EnteredBy(mods, ids, b, i, x)
    requires forall x :: EnteredBy(mods, ids, a, i, x) ==> EnteredBy(mods, ids, b, i, x)
    requires forall x :: EnteredBy(mods, ids, b, i, x) ==> EnteredBy(mods, ids, a, i, x) || x in m.entered
    ensures forall x :: Entered(mods, ids, b, x) <==> Entered(mods, ids, a, x) || x in m.entered
  {
    assert forall j :: 0 <= j < |a.walkers| && j != i ==> b.walkers[j] == a.walkers[j];
    forall j, x | 0 <= j < |ids| && j != i
      ensures EnteredBy(mods, ids, a, j, x) <==> EnteredBy(mods, ids, b, j, x)
    {
    }
    hide EnteredBy;
    forall x | Entered(mods, ids, a, x)
      ensures Entered(mods, ids, b, x)
    {
      if x !in a.required {
        var j :| 0 <= j < |ids| && EnteredBy(mods, ids, a, j, x);
        assert EnteredBy(mods, ids, b, j, x);
      }
    }
    forall x | Entered(mods, ids, b, x)
      ensures Entered(mods, ids, a, x) || x in m.entered
    {
      if x !in b.required {
        var j :| 0 <= j < |ids| && EnteredBy(mods, ids, b, j, x);
        assert EnteredBy(mods, ids, a, j, x) || x in m.entered;
      }
    }
  }

  lemma StepPending(mods: Modules, ids: seq<Id>, c: Crew, i: nat)
    requires |ids| == |c.walkers| && Active(c, i)
    ensures var b, m := Step(mods, ids, c, i), MoveOf(mods, ids, c, i);
            && (forall d :: Pending(b, d) ==> Pending(c, d) || d in m.listed)
            && (forall d :: d in m.listed || (Pending(c, d) && d !in m.dropped) ==> Pending(b, d))
            && (forall d :: d in m.dropped ==> Pending(c, d))
  {
    hide Starts, Get, Follows, Pending;
    var b := Step(mods, ids, c, i);
    ReplacePending(c, b, i, b.walkers[i], b.required - c.required, MoveOf(mods, ids, c, i));
  }

  lemma StepEntered(mods: Modules, ids: seq<Id>, c: Crew, i: nat)
    requires |ids| == |c.walkers| && Active(c, i)
    ensures var b, m := Step(mods, ids, c, i), MoveOf(mods, ids, c, i);
            |b.walkers| == |ids| && forall x :: Entered(mods, ids, b, x) <==> Entered(mods, ids, c, x) || x in m.entered
  {
    hide Starts, Get, Follows, Entered;
    var b := Step(mods, ids, c, i);
    ReplaceEntered(mods, ids, c, b, i, b.walkers[i], b.required - c.required, MoveOf(mods, ids, c, i));
  }

  lemma StepMoves(mods: Modules, ids: seq<Id>, c: Crew, i: nat)
    requires |ids| == |c.walkers| && Active(c, i)
    ensures Moves(mods, ids, c, Step(mods, ids, c, i), MoveOf(mods, ids, c, i))
  {
    hide Step, MoveOf, Pending, Entered;
    StepPending(mods, ids, c, i);
    StepEntered(mods, ids, c, i);
  }

  lemma StepIsGood(mods: Modules, ids: seq<Id>, c: Crew, i: nat)
    requires Sane(mods, ids, c) && Active(c, i)
    ensures GoodMove(mods, ids, c, MoveOf(mods, ids, c, i))
  {
    hide Covered, Starts;
    var w := c.walkers[i];
    assert forall d :: d in Todo(w) ==> Pending(c, d);
    assert forall x :: x in Seen(w) ==> EnteredBy(mods, ids, c, i, x);
    hide Pending, EnteredBy;
  }

  lemma StepKeepsMarked(mods: Modules, ids: seq<Id>, c: Crew, i: nat)
    requires Sane(mods, ids, c) && Active(c, i)
    ensures Marked(mods, ids, Step(mods, ids, c, i))
  {
    StepMoves(mods, ids, c, i);
    hide Covered, Entered, Pending, Starts, Follows;
  }

  lemma StepKeepsNext(mods: Modules, ids: seq<Id>, c: Crew, i: nat)
    requires Sane(mods, ids, c) && Active(c, i)
    ensures var b := Step(mods, ids, c, i);
            forall j :: 0 <= j < |ids| && b.walkers[j].AboutToMark? ==>
              Get(mods, b.walkers[j].next).enableable && Follows(mods, b.walkers[j].next)
  {
    hide Covered, Marked, Entered, Pending, Starts, Get;
  }

  lemma StepKeepsSane(mods: Modules, ids: seq<Id>, c: Crew, i: nat)
    requires Sane(mods, ids, c) && Active(c, i)
    ensures Sane(mods, ids, Step(mods, ids, c, i))
  {
    hide Covered, Marked, Entered, Pending, Moves, GoodMove, MoveOf, Step, Active, Get;
    StepMoves(mods, ids, c, i);
    StepIsGood(mods, ids, c, i);
    StepKeepsMarked(mods, ids, c, i);
    StepKeepsNext(mods, ids, c, i);
    StepCount(mods, ids, c, i);
    MoveCovers(mods, ids, c, Step(mods, ids, c, i), MoveOf(mods, ids, c, i));
    MoveIsSourced(mods, ids, c, Step(mods, ids, c, i), MoveOf(mods, ids, c, i));
  }

  lemma StepCount(mods: Modules, ids: seq<Id>, c: Crew, i: nat)
    requires |ids| == |c.walkers| && Active(c, i)
    ensures |Step(mods, ids, c, i).walkers| == |ids|
  {
  }

  lemma {:induction false} RunKeepsSane(mods: Modules, ids: seq<Id>, a: Crew, turns: seq<nat>, b: Crew)
    requires Sane(mods, ids, a) && Reaches(mods, ids, a, turns, b)
    ensures Sane(mods, ids, b)
    decreases |turns|
  {
    hide Sane, Step, Active;
    if turns != [] {
      SaneCount(mods, ids, a);
      StepKeepsSane(mods, ids, a, turns[0]);
      RunKeepsSane(mods, ids, Step(mods, ids, a, turns[0]), turns[1..], b);
    }
  }

  lemma SaneCount(mods: Modules, ids: seq<Id>, a: Crew)
    requires Sane(mods, ids, a)
    ensures |ids| == |a.walkers|
  {
  }

  /*** The outcome ***/

  ghost predicate AllListed(mods: Modules, ids: seq<Id>) {
    forall x :: x in ids <==> x in mods
  }

  lemma NothingPending(c: Crew)
    requires Finished(c)
    ensures forall d :: !Pending(c, d)
    ensures forall i :: 0 <= i < |c.walkers| ==> !c.walkers[i].Idle?
  {
    forall i | 0 <= i < |c.walkers|
      ensures c.walkers[i].Walking? && c.walkers[i].todo == []
    {
      assert !Active(c, i);
    }
  }

  lemma AllFoundIsEntered(mods: Modules, ids: seq<Id>, c: Crew, x: Id)
    requires AllListed(mods, ids) && Sane(mods, ids, c) && Finished(c) && Found(mods, x)
    ensures Entered(mods, ids, c, x)
  {
    hide Pending, WalkEdges, Finished;
    NothingPending(c);
    var s :| Starts(mods, s) && Reach(WalkEdges(mods), s, x);
    var i :| 0 <= i < |ids| && ids[i] == s;
    assert EnteredBy(mods, ids, c, i, s);
    hide Entered, EnteredBy;
    var S := iset y | Entered(mods, ids, c, y);
    ReachClosed(WalkEdges(mods), S, s, x);
  }

  /** However the walkers take turns, once all are done the marked modules are those that
      can be found from the start modules through dependencies that are not disabled. */
  lemma MarksAreRequired(mods: Modules, ids: seq<Id>, turns: seq<nat>, c: Crew)
    requires AllListed(mods, ids) && Reaches(mods, ids, Start(ids), turns, c) && Finished(c)
    ensures c.required == Required(mods)
  {
    hide AllListed, Reaches, Found, Entered, Covered, Pending, Finished, Get;
    StartIsSane(mods, ids);
    RunKeepsSane(mods, ids, Start(ids), turns, c);
    forall x
      ensures x in c.required <==> x in Required(mods)
    {
      if x in c.required {
        RequiredIsEntered(mods, ids, c, x);
        EnableableIsKnown(mods, x);
      }
      if x in Required(mods) {
        EnableableIsKnown(mods, x);
        AllFoundIsEntered(mods, ids, c, x);
      }
    }
  }

  lemma RequiredIsEntered(mods: Modules, ids: seq<Id>, c: Crew, x: Id)
    requires |ids| == |c.walkers| && x in c.required
    ensures Entered(mods, ids, c, x)
  {
  }

  lemma EnableableIsKnown(mods: Modules, x: Id)
    ensures Get(mods, x).enableable <==> x in mods && mods[x].enableable
  {
  }

  /*** The walks end ***/

  ghost function Height(mods: Modules, x: Id): nat {
    Rank(DepEdges(mods), mods.Keys, x)
  }

  ghost function MostDeps(mods: Modules): (n: nat)
    ensures forall x :: x in mods ==> |mods[x].deps| <= n
  {
    MostDepsIn(mods, mods.Keys)
  }

  ghost function MostDepsIn(mods: Modules, xs: set<Id>): (n: nat)
    requires xs <= mods.Keys
    ensures forall x :: x in xs ==> |mods[x].deps| <= n
    decreases |xs|
  {
    if xs == {} then 0
    else
      var x :| x in xs;
      var n := MostDepsIn(mods, xs - {x});
      if |mods[x].deps| <= n then n else |mods[x].deps|
  }

  /** Long walks from high modules weigh more than any from low ones together. */
  ghost function Weight(mods: Modules, x: Id): (w: nat)
    ensures w >= 1
  {
    PowMono(MostDeps(mods) + 2, 0, Height(mods, x));
    Pow(MostDeps(mods) + 2, Height(mods, x))
  }

  ghost function Weights(mods: Modules, xs: seq<Id>): nat {
    if xs == [] then 0 else 2 * Weight(mods, xs[0]) + Weights(mods, xs[1..])
  }

  ghost function WalkerWeight(mods: Modules, x: Id, w: Walker): nat {
    match w
    case Idle => 1 + Weights(mods, Get(mods, x).deps)
    case Walking(todo, _) => Weights(mods, todo)
    case AboutToMark(d, todo, _) => 2 * Weight(mods, d) + Weights(mods, todo) - 1
  }

  ghost function CrewWeight(mods: Modules, ids: seq<Id>, ws: seq<Walker>): nat
    requires |ids| == |ws|
  {
    if ids == [] then 0
    else WalkerWeight(mods, ids[0], ws[0]) + CrewWeight(mods, ids[1..], ws[1..])
  }

  lemma {:induction false} WeightsAdd(mods: Modules, xs: seq<Id>, ys: seq<Id>)
    ensures Weights(mods, xs + ys) == Weights(mods, xs) + Weights(mods, ys)
  {
    if xs == [] {
      assert xs + ys == ys;
    } else {
      assert (xs + ys)[1..] == xs[1..] + ys;
      WeightsAdd(mods, xs[1..], ys);
    }
  }

  lemma {:induction false} WeightsBound(mods: Modules, xs: seq<Id>, w: nat)
    requires forall x :: x in xs ==> Weight(mods, x) <= w
    ensures Weights(mods, xs) <= 2 * w * |xs|
  {
    hide Weight;
    if xs != [] {
      WeightsBound(mods, xs[1..], w);
      assert 2 * w * |xs| == 2 * w + 2 * w * |xs[1..]|;
    }
  }

  /** The dependencies of a module weigh less than the module. */
  lemma DepsWeighLess(mods: Modules, x: Id)
    requires Acyclic(DepEdges(mods))
    ensures Weights(mods, Get(mods, x).deps) < 2 * Weight(mods, x) - 1
  {
    hide DepEdges, Acyclic, Height, MostDeps, Weights;
    WeightsNone(mods);
    var b := MostDeps(mods) + 2;
    var deps := Get(mods, x).deps;
    if x !in mods || deps == [] {
      PowMono(b, 0, Height(mods, x));
    } else {
      forall d | d in deps
        ensures Height(mods, d) < Height(mods, x)
      {
        HeightDrops(mods, x, d);
      }
      assert deps[0] in deps;
      var h := Height(mods, x) - 1;
      forall d | d in deps
        ensures Weight(mods, d) <= Pow(b, h)
      {
        PowMono(b, Height(mods, d), h);
      }
      WeightsBound(mods, deps, Pow(b, h));
      PowMono(b, 0, h);
      Product(Pow(b, h), |deps|, b);
      assert Pow(b, h + 1) == b * Pow(b, h);
    }
  }

  lemma Product(p: nat, n: nat, b: nat)
    requires 1 <= p && n <= b - 2
    ensures 2 * p * n < 2 * (b * p) - 1
  {
    MulMono(2 * p, n, b - 2);
    assert 2 * p * (b - 2) == 2 * (b * p) - 4 * p;
  }

  lemma WeightsNone(mods: Modules)
    ensures Weights(mods, []) == 0
  {
  }

  lemma HeightDrops(mods: Modules, x: Id, d: Id)
    requires Acyclic(DepEdges(mods)) && x in mods && d in mods[x].deps
    ensures Height(mods, d) < Height(mods, x)
  {
    ReachRefl(DepEdges(mods), d);
    RankDrops(DepEdges(mods), mods.Keys, x, d);
  }

  lemma EnterLightens(mods: Modules, d: Id, todo: seq<Id>, seen: set<Id>, x: Id)
    requires Acyclic(DepEdges(mods))
    ensures WalkerWeight(mods, x, Enter(mods, d, todo, seen)) < 2 * Weight(mods, d) - 1 + Weights(mods, todo)
  {
    hide Acyclic, DepEdges, Weights, Weight;
    DepsWeighLess(mods, d);
    WeightsAdd(mods, Get(mods, d).deps, todo);
  }

  lemma WalkerLightens(mods: Modules, ids: seq<Id>, c: Crew, i: nat)
    requires Acyclic(DepEdges(mods)) && |ids| == |c.walkers| && Active(c, i)
    ensures WalkerWeight(mods, ids[i], Step(mods, ids, c, i).walkers[i]) < WalkerWeight(mods, ids[i], c.walkers[i])
  {
    hide Acyclic, DepEdges, Starts, Weight, Enter;
    match c.walkers[i]
    case Idle =>
    case Walking(todo, seen) =>
      DepsWeighLess(mods, todo[0]);
      EnterLightens(mods, todo[0], todo[1..], seen, ids[i]);
    case AboutToMark(d, todo, seen) =>
      EnterLightens(mods, d, todo, seen, ids[i]);
  }

  lemma {:induction false} CrewLightens(mods: Modules, ids: seq<Id>, ws: seq<Walker>, i: nat, w: Walker)
    requires |ids| == |ws| && i < |ids| && WalkerWeight(mods, ids[i], w) < WalkerWeight(mods, ids[i], ws[i])
    ensures CrewWeight(mods, ids, ws[i := w]) < CrewWeight(mods, ids, ws)
  {
    hide WalkerWeight;
    if i > 0 {
      CrewLightens(mods, ids[1..], ws[1..], i - 1, w);
      assert ws[i := w][1..] == ws[1..][i - 1 := w];
    } else {
      assert ws[i := w][1..] == ws[1..];
    }
  }

  /** Every step lightens the crew, so no run has more steps than its weight. */
  lemma {:induction false} RunsEnd(mods: Modules, ids: seq<Id>, a: Crew, turns: seq<nat>, b: Crew)
    requires Acyclic(DepEdges(mods)) && |ids| == |a.walkers| && Reaches(mods, ids, a, turns, b)
    ensures |ids| == |b.walkers| && |turns| + CrewWeight(mods, ids, b.walkers) <= CrewWeight(mods, ids, a.walkers)
    decreases |turns|
  {
    hide Acyclic, DepEdges, WalkerWeight, CrewWeight, Active;
    if turns != [] {
      var i := turns[0];
      ActiveIs(a, i);
      var c := Step(mods, ids, a, i);
      WalkerLightens(mods, ids, a, i);
      StepOnlyOne(mods, ids, a, i);
      CrewLightens(mods, ids, a.walkers, i, c.walkers[i]);
      RunsEnd(mods, ids, c, turns[1..], b);
    }
  }

  lemma ActiveIs(c: Crew, i: nat)
    requires Active(c, i)
    ensures i < |c.walkers|
  {
  }

  lemma StepOnlyOne(mods: Modules, ids: seq<Id>, c: Crew, i: nat)
    requires |ids| == |c.walkers| && Active(c, i)
    ensures var b := Step(mods, ids, c, i);
            |b.walkers| == |ids| && b.walkers == c.walkers[i := b.walkers[i]]
  {
  }

  /** Every run can be carried on to one that is finished, and comes to the same marks. */
  lemma {:induction false} RunsFinish(mods: Modules, ids: seq<Id>, a: Crew) returns (turns: seq<nat>, b: Crew)
    requires Acyclic(DepEdges(mods)) && |ids| == |a.walkers|
    ensures Reaches(mods, ids, a, turns, b) && Finished(b)
    decreases CrewWeight(mods, ids, a.walkers)
  {
    hide Acyclic, DepEdges, WalkerWeight, CrewWeight, Active;
    if Finished(a) {
      turns, b := [], a;
    } else {
      var i: nat :| 0 <= i < |a.walkers| && Active(a, i);
      var c := Step(mods, ids, a, i);
      WalkerLightens(mods, ids, a, i);
      StepOnlyOne(mods, ids, a, i);
      CrewLightens(mods, ids, a.walkers, i, c.walkers[i]);
      var rest;
      rest, b := RunsFinish(mods, ids, c);
      turns := [i] + rest;
      assert turns[1..] == rest;
    }
  }
}
