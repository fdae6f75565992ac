/** Disabling modules whose dependencies are disabled, unless the build requires them. */
module Disabling {
  import opened Digraph
  import opened Marking

  ghost function EnabledAtFirst(mods: Modules): set<Id> {
    set x | x in mods && mods[x].enableable && mods[x].enabled
  }

  /** A dependency that has to be enabled: defaults and what is never disabled do not. */
  predicate Matters(mods: Modules, d: Id) {
    Get(mods, d).enableable && !Get(mods, d).isDefaults
  }

  /** x depends directly on something disabled to begin with. */
  ghost predicate Broken(mods: Modules, x: Id) {
    Matters(mods, x) && exists d :: d in Get(mods, x).deps && Matters(mods, d) && d !in EnabledAtFirst(mods)
  }

  /** X could stay enabled: its members have all they need within X. */
  ghost predicate Sustained(mods: Modules, X: set<Id>) {
    && X <= EnabledAtFirst(mods)
    && forall x, d :: x in X && Matters(mods, x) && d in Get(mods, x).deps && Matters(mods, d) ==> d in X
  }

  /** Each module once, after its dependencies. */
  ghost predicate DepsFirst(mods: Modules, order: seq<Id>) {
    && AllListed(mods, order)
    && (forall i, j :: 0 <= i < j < |order| ==> order[i] != order[j])
    && (forall i, d :: 0 <= i < |order| && d in Get(mods, order[i]).deps && d in mods ==> d in order[..i])
  }

  /*** What is required ***/

  lemma FoundIsEnabled(mods: Modules, x: Id)
    requires Found(mods, x)
    ensures Follows(mods, x)
  {
    var s :| Starts(mods, s) && Reach(WalkEdges(mods), s, x);
    hide Reach;
    var S := iset y | Follows(mods, y);
    ReachClosed(WalkEdges(mods), S, s, x);
  }

  /** What a required module needs is required too, unless it is disabled to begin with. */
  lemma RequiredIsClosed(mods: Modules, x: Id, d: Id)
    requires x in Required(mods) && d in Get(mods, x).deps && Get(mods, d).enableable && Get(mods, d).enabled
    ensures d in Required(mods)
  {
    hide Found;
    FoundOn(mods, x, d);
  }

  lemma RequiredIsEnabled(mods: Modules)
    ensures Required(mods) <= EnabledAtFirst(mods)
  {
    forall x | x in Required(mods)
      ensures x in EnabledAtFirst(mods)
    {
      FoundIsEnabled(mods, x);
    }
  }

  /** The dependencies of x that matter and are not in X. */
  ghost function Lacking(mods: Modules, x: Id, X: set<Id>): set<Id> {
    set d | d in Get(mods, x).deps && Matters(mods, d) && d !in X
  }

  /** The modules of seen have been looked at and E is what is enabled. */
  ghost predicate SoFar(mods: Modules, E: set<Id>, seen: seq<Id>) {
    && E <= EnabledAtFirst(mods) && Required(mods) <= E
    && (forall x :: x in EnabledAtFirst(mods) && x !in seen ==> x in E)
    && (forall x :: x in seen && x in E && Matters(mods, x) ==> Lacking(mods, x, E) == {})
    && (forall X :: Sustained(mods, X) ==> X <= E)
    && (forall x :: x in seen && x in Required(mods) ==> !Broken(mods, x))
  }

  lemma Beginning(mods: Modules)
    ensures SoFar(mods, EnabledAtFirst(mods), [])
  {
    RequiredIsEnabled(mods);
    hide Required, EnabledAtFirst;
  }

  lemma NothingLacking(mods: Modules, x: Id, E: set<Id>, seen: seq<Id>)
    requires SoFar(mods, E, seen) && (Matters(mods, x) && x in E ==> Lacking(mods, x, E) == {})
    ensures SoFar(mods, E, seen + [x])
  {
    hide Required, EnabledAtFirst, Sustained, Matters, Get;
    if Broken(mods, x) && x in Required(mods) {
      BrokenLacks(mods, x, E);
    }
  }

  lemma BrokenLacks(mods: Modules, x: Id, E: set<Id>)
    requires Broken(mods, x) && E <= EnabledAtFirst(mods)
    ensures Matters(mods, x) && Lacking(mods, x, E) != {}
  {
    hide EnabledAtFirst;
    var d :| d in Get(mods, x).deps && Matters(mods, d) && d !in EnabledAtFirst(mods);
    assert d in Lacking(mods, x, E);
  }

  lemma Removed(mods: Modules, x: Id, E: set<Id>, seen: seq<Id>)
    requires SoFar(mods, E, seen) && x !in Required(mods) && Matters(mods, x) && Lacking(mods, x, E) != {}
    requires forall y :: y in seen ==> x !in Get(mods, y).deps
    ensures SoFar(mods, E - {x}, seen + [x])
  {
    hide Required, EnabledAtFirst, Get;
    forall X | Sustained(mods, X)
      ensures X <= E - {x}
    {
      var d :| d in Lacking(mods, x, E);
      assert d !in X;
    }
    forall y | y in seen && y in E && Matters(mods, y)
      ensures Lacking(mods, y, E - {x}) == {}
    {
      assert Lacking(mods, y, E - {x}) <= Lacking(mods, y, E);
    }
  }

  lemma RequiredLacks(mods: Modules, x: Id, E: set<Id>, seen: seq<Id>)
    requires SoFar(mods, E, seen) && x in Required(mods) && Matters(mods, x) && Lacking(mods, x, E) != {}
    ensures Broken(mods, x)
  {
    var d :| d in Lacking(mods, x, E);
    if d in EnabledAtFirst(mods) {
      RequiredIsClosed(mods, x, d);
    }
  }

  lemma AllSeen(mods: Modules, E: set<Id>, order: seq<Id>)
    requires SoFar(mods, E, order) && AllListed(mods, order)
    ensures Sustained(mods, E) && forall x :: x in Required(mods) ==> !Broken(mods, x)
  {
    forall x, d | x in E && Matters(mods, x) && d in Get(mods, x).deps && Matters(mods, d)
      ensures d in E
    {
      assert d !in Lacking(mods, x, E);
    }
  }

  class Check {
    const mods: Modules
    const required: set<Id>
    var enabled: set<Id>

    constructor (mods: Modules, required: set<Id>)
      ensures this.mods == mods && this.required == required && enabled == EnabledAtFirst(mods)
    {
      this.mods, this.required := mods, required;
      enabled := set x | x in mods && mods[x].enableable && mods[x].enabled;
    }

    /** Looks at one module. A required module with disabled dependencies ends the build,
        which then names them. */
    method Visit(x: Id) returns (died: bool, named: seq<Id>)
      modifies this
      ensures died <==> x in required && x in old(enabled) && Matters(mods, x) && Lacking(mods, x, old(enabled)) != {}
      ensures enabled ==
                if !died && Matters(mods, x) && Lacking(mods, x, old(enabled)) != {} then old(enabled) - {x}
                else old(enabled)
      ensures died ==> (set d | d in named) == Lacking(mods, x, enabled)
    {
      died, named := false, [];
      if !Matters(mods, x) || x !in enabled {
        return;
      }
      var deps := Get(mods, x).deps;
      var i := 0;
      while i < |deps|
        invariant 0 <= i <= |deps|
        invariant forall d :: d in named <==> d in deps[..i] && Matters(mods, d) && d !in enabled
      {
        if Matters(mods, deps[i]) && deps[i] !in enabled && deps[i] !in named {
          named := named + [deps[i]];
        }
        i := i + 1;
      }
      assert deps[..i] == deps;
      assert forall d :: d in named <==> d in Lacking(mods, x, enabled);
      if named != [] {
        assert named[0] in Lacking(mods, x, enabled);
        if x in required {
          died := true;
        } else {
          enabled := enabled - {x};
        }
      }
    }

    /** Looks at all modules, dependencies first. The build ends exactly when some required
        module depends directly on something that was disabled to begin with. Otherwise all
        required modules stay enabled, and so does everything that can. */
    method VisitAll(order: seq<Id>) returns (died: bool, at: Id)
      requires DepsFirst(mods, order) && required == Required(mods) && enabled == EnabledAtFirst(mods)
      modifies this
      ensures died <==> exists x :: x in required && Broken(mods, x)
      ensures died ==> at in required && Broken(mods, at)
      ensures !died ==> required <= enabled && Sustained(mods, enabled)
      ensures !died ==> forall X :: Sustained(mods, X) ==> X <= enabled
    {
      Beginning(mods);
      hide Required, EnabledAtFirst, Get, Matters, Lacking, Broken, Sustained, AllListed;
      var i := 0;
      while i < |order|
        invariant 0 <= i <= |order| && SoFar(mods, enabled, order[..i])
      {
        ghost var before := enabled;
        at := order[i];
        var named;
        died, named := Visit(at);
        if died {
          RequiredLacks(mods, at, before, order[..i]);
          return;
        }
        assert order[..i + 1] == order[..i] + [at];
        if enabled == before {
          NothingLacking(mods, at, before, order[..i]);
        } else {
          NotNeededYet(mods, order, i);
          Removed(mods, at, before, order[..i]);
        }
        i := i + 1;
      }
      assert order[..i] == order;
      AllSeen(mods, enabled, order);
      return false, "";
    }
  }

  lemma NotNeededYet(mods: Modules, order: seq<Id>, i: nat)
    requires DepsFirst(mods, order) && i < |order|
    ensures forall y :: y in order[..i] ==> order[i] !in Get(mods, y).deps
  {
    assert order[i] in mods;
    forall y | y in order[..i]
      ensures order[i] !in Get(mods, y).deps
    {
      var j :| 0 <= j < i && order[j] == y;
    }
  }
}
