/** What a consistent configuration is, fact by fact, and which facts an assignment to one
    option can upset. */
module Consistency {
  import opened Wrappers
  import opened Options
  import opened Choices
  import opened Levels

  /** A known option outside any choice. */
  predicate Free(db: Db, k: Key) {
    k in db.decls && DeclOf(db, k).group.None?
  }

  /** The condition under which the list selects k. A later entry overrides an earlier one. */
  function LastCond(list: seq<(Key, Cond)>, k: Key): Option<Cond> {
    if list == [] then None
    else if list[|list| - 1].0 == k then Some(list[|list| - 1].1)
    else LastCond(list[..|list| - 1], k)
  }

  predicate Picks(db: Db, st: State, s: Key, k: Key) {
    On(st, s) && var c := LastCond(DeclOf(db, s).selectIf, k); (c.Some? ==> Holds(st, c.value))
  }

  /** The option holds the wanted value as far as its dependencies allow. */
  predicate Meets(db: Db, st: State, k: Key, want: Option<Value>) {
    if DeclOf(db, k).datatype_ == BoolType then
      && (On(st, k) ==> want == Some(B(true)))
      && (want == Some(B(true)) && CanEnable(db, st, k) ==> On(st, k))
    else
      want == Some(ValueOf(st, k))
  }

  datatype Fact =
    | Exclusive(g: Group)          // at most one member of the choice is on
    | Recorded(g: Group)           // if the choice records a selection, some member is on
    | Chosen(g: Group)             // and also if some member can be enabled
    | Picked(k: Key)               // if the choice records the member, it is on
    | Forced(k: Key)               // if the option is selected, it is on
    | Asked(k: Key)                // if not, it meets what the user asked for,
    | Defaulted(k: Key)            //   or else its default
    | Linked(s: Key, k: Key)       // s is recorded as selecting k just when it does
    | Unset(k: Key)                // the user did not set the option

  /** A known member of a choice that no other member can displace by being selected. */
  ghost predicate Alone(db: Db, k: Key) {
    k in db.decls && DeclOf(db, k).group.Some? && !Rivalled(db, k)
  }

  function ChoiceWith(db: Db, k: Key): Group {
    match DeclOf(db, k).group
    case Some(g) => g
    case None => 0
  }

  /** An option outside choices that the user set and nothing selects holds what was asked
      for. The member that was last asked for is on if it can be enabled. */
  ghost predicate AsAsked(db: Db, st: State, k: Key) {
    && (Free(db, k) && OptOf(st, k).selectedBy == {} && OptOf(st, k).userSet ==>
          Meets(db, st, k, OptOf(st, k).requested))
    && (Alone(db, k) ==> Grips(db, st, ChoiceWith(db, k), k) && Wished(db, st, k))
  }

  predicate Wished(db: Db, st: State, k: Key) {
    ChoiceOf(st, ChoiceWith(db, k)).requested == Some(k) && CanEnable(db, st, k) ==> On(st, k)
  }

  ghost predicate Good(db: Db, st: State, f: Fact) {
    match f
    case Exclusive(g) => AtMostOneOn(db, st, g)
    case Recorded(g) => MembersOf(db, g) != [] && ChoiceOf(st, g).selected.Some? ==> SomeOn(db, st, g)
    case Chosen(g) => Steady(db, f) && MembersOf(db, g) != [] ==> Full(db, st, g)
    case Picked(k) => Alone(db, k) ==> Grips(db, st, ChoiceWith(db, k), k)
    case Forced(k) => k in db.decls && !Rivalled(db, k) && OptOf(st, k).selectedBy != {} ==> On(st, k)
    case Asked(k) => Steady(db, f) ==> AsAsked(db, st, k)
    case Defaulted(k) =>
      Steady(db, f) && Free(db, k) && OptOf(st, k).selectedBy == {} && !OptOf(st, k).userSet ==>
        Meets(db, st, k, Some(DefaultOf(db, st, k)))
    case Linked(s, k) =>
      Steady(db, f) && Links(db, s, k) ==> (s in OptOf(st, k).selectedBy <==> Picks(db, st, s, k))
    case Unset(k) => k in db.decls ==> !OptOf(st, k).userSet
  }

  /** Whether s selects k in a way that selected_by records reliably: a member of a choice
      does so by conditional selects only. */
  ghost predicate Links(db: Db, s: Key, k: Key) {
    && s in db.decls && k in db.decls && k in Targets(db.decls[s])
    && (Free(db, s) || LastCond(db.decls[s].selectIf, k).Some?)
  }

  function LevelOf(db: Db, rank: Ranks, f: Fact): int {
    match f
    case Exclusive(g) => GroupRank(db, rank, g)
    case Recorded(g) => GroupRank(db, rank, g)
    case Chosen(g) => GroupRank(db, rank, g)
    case Linked(_, k) => RankOf(rank, k)
    case _ => RankOf(rank, f.k)
  }

  function GroupRank(db: Db, rank: Ranks, g: Group): int {
    if MembersOf(db, g) == [] then 0 else RankOf(rank, MembersOf(db, g)[0])
  }

  /** The facts about other options that a new value of key can upset. */
  ghost predicate Dirty(db: Db, f: Fact, key: Key) {
    match f
    case Chosen(g) => exists m :: m in MembersOf(db, g) && key in DependsKeys(db, m)
    case Asked(k) => k in db.decls && key in DependsKeys(db, k)
    case Defaulted(k) => Free(db, k) && key in DependsKeys(db, k) + DefaultKeys(db, k)
    case Linked(s, k) =>
      Links(db, s, k) && (s == key || (LastCond(db.decls[s].selectIf, k).Some? && key in IfKeys(db.decls[s])))
    case _ => false
  }

  /** The option is in a choice where some other member can be selected and a third one is
      listed before that. Told to go on, the option stays on until the third one has been
      turned off, and only then gives way. */
  ghost predicate Displaceable(db: Db, i: Key) {
    var ms := MembersOf(db, ChoiceWith(db, i));
    DeclOf(db, i).group.Some? &&
    exists p, q :: 0 <= p < q < |ms| && ms[p] != i && ms[q] != i && Selectable(db, ms[q])
  }

  /** Nothing the fact looks at can be displaced. When an option is, what looks at it is not
      told. */
  ghost predicate Steady(db: Db, f: Fact) {
    forall key :: Dirty(db, f, key) ==> !Displaceable(db, key)
  }

  /** The facts that an assignment to key settles in its own way. In a choice that is also
      what was asked of the other members; and the user's assignment marks those. */
  predicate Own(db: Db, f: Fact, key: Key, user: bool) {
    || f == Defaulted(key)
    || ((f.Asked? || (user && f.Unset?)) && (f.k == key || SameGroup(db, f.k, key)))
  }

  /** Every good fact outside X stays good. */
  ghost predicate Keeps(db: Db, a: State, b: State, X: iset<Fact>) {
    forall f :: f !in X && Good(db, a, f) ==> Good(db, b, f)
  }

  lemma KeepsOn(db: Db, a: State, b: State, c: State, X: iset<Fact>)
    requires Keeps(db, a, b, X) && Keeps(db, b, c, X)
    ensures Keeps(db, a, c, X)
  {
    hide Good;
  }

  /*** What facts look at ***/

  lemma {:induction false} LastCondIs(list: seq<(Key, Cond)>, k: Key)
    ensures LastCond(list, k).Some? <==> exists i :: 0 <= i < |list| && list[i].0 == k
    ensures LastCond(list, k).Some? ==> exists i :: 0 <= i < |list| && list[i] == (k, LastCond(list, k).value)
  {
    if list != [] {
      var n := |list| - 1;
      LastCondIs(list[..n], k);
      if list[n].0 != k {
        forall i | 0 <= i < |list| && list[i].0 == k
          ensures LastCond(list, k).Some?
        {
          assert list[..n][i].0 == k;
        }
      } else {
        assert list[n] == (k, list[n].1);
      }
    }
  }

  lemma LastCondKeys(db: Db, s: Key, k: Key)
    requires s in db.decls
    ensures var c := LastCond(db.decls[s].selectIf, k);
            && (c.Some? <==> k in IfTargets(db.decls[s]))
            && (c.Some? ==> CondKeys(c.value) <= IfKeys(db.decls[s]))
  {
    LastCondIs(db.decls[s].selectIf, k);
  }

  lemma SameMeets(db: Db, a: State, b: State, k: Key, want: Option<Value>)
    requires OptOf(a, k) == OptOf(b, k) && (CanEnable(db, a, k) <==> CanEnable(db, b, k))
    ensures Meets(db, a, k, want) <==> Meets(db, b, k, want)
  {
  }

  lemma SamePicks(db: Db, a: State, b: State, s: Key, k: Key)
    requires s in db.decls && (On(a, s) <==> On(b, s))
    requires LastCond(db.decls[s].selectIf, k).Some? ==> Agree(a, b, IfKeys(db.decls[s]))
    ensures Picks(db, a, s, k) <==> Picks(db, b, s, k)
  {
    hide Holds, LastCond, IfKeys;
    LastCondKeys(db, s, k);
    var c := LastCond(db.decls[s].selectIf, k);
    if c.Some? {
      CondFrame(a, b, c.value);
      SameHolds(a, b, c.value);
    }
  }

  lemma SameHolds(a: State, b: State, c: Cond)
    requires CondValue(a, c) == CondValue(b, c)
    ensures Holds(a, c) <==> Holds(b, c)
  {
  }

  /** Facts depend on the levels up to their own. */
  lemma SameGood(db: Db, rank: Ranks, a: State, b: State, n: int, f: Fact)
    requires Sound(db) && Ranked(db, rank) && Same(db, rank, a, b, n) && LevelOf(db, rank, f) < n
    ensures Good(db, a, f) <==> Good(db, b, f)
  {
    hide Sound, Ranked, Same, CanEnable, DefaultOf, OptOf, Meets, Picks, Links, AtMostOneOn, SomeOn, Enableable, Steady;
    hide Alone, Grips, Wished, Rivalled, ChoiceWith;
    match f
    case Picked(k) => SameMember(db, rank, a, b, n, k);
    case Exclusive(g) => SameExclusive(db, rank, a, b, n, g);
    case Recorded(g) => SameExclusive(db, rank, a, b, n, g);
    case Chosen(g) => SameExclusive(db, rank, a, b, n, g);
    case Linked(s, k) =>
      if Links(db, s, k) {
        SameLinked(db, rank, a, b, n, s, k);
      }
    case Forced(k) =>
      if k in db.decls {
        SameOpt(db, rank, a, b, n, k);
        OnByOpt(a, b, k);
      }
    case Asked(k) =>
      SameFree(db, rank, a, b, n, k);
      SameMember(db, rank, a, b, n, k);
    case Defaulted(k) => SameFree(db, rank, a, b, n, k);
    case Unset(k) =>
      if k in db.decls {
        SameOpt(db, rank, a, b, n, k);
      }
  }

  lemma SameFree(db: Db, rank: Ranks, a: State, b: State, n: int, k: Key)
    requires Ranked(db, rank) && Same(db, rank, a, b, n) && RankOf(rank, k) < n
    ensures Free(db, k) ==> OptOf(a, k) == OptOf(b, k) && (On(a, k) <==> On(b, k))
    ensures Free(db, k) ==> (Meets(db, a, k, OptOf(a, k).requested) <==> Meets(db, b, k, OptOf(a, k).requested))
    ensures Free(db, k) ==> (Meets(db, a, k, Some(DefaultOf(db, a, k))) <==> Meets(db, b, k, Some(DefaultOf(db, b, k))))
  {
    hide Ranked, Same, CanEnable, DefaultOf, OptOf, Meets;
    if Free(db, k) {
      SameOpt(db, rank, a, b, n, k);
      OnByOpt(a, b, k);
      SameSight(db, rank, a, b, n, k);
      SameMeets(db, a, b, k, OptOf(a, k).requested);
      SameMeets(db, a, b, k, Some(DefaultOf(db, a, k)));
    }
  }

  lemma SameMember(db: Db, rank: Ranks, a: State, b: State, n: int, k: Key)
    requires Sound(db) && Ranked(db, rank) && Same(db, rank, a, b, n) && RankOf(rank, k) < n
    ensures Alone(db, k) ==> (Grips(db, a, ChoiceWith(db, k), k) <==> Grips(db, b, ChoiceWith(db, k), k))
    ensures Alone(db, k) ==> (Wished(db, a, k) <==> Wished(db, b, k))
  {
    hide Sound, Ranked, Same, CanEnable, OptOf, AtMostOneOn, SomeOn, Enableable, Rivalled, ChoiceOf, RankOf;
    if Alone(db, k) {
      var g := ChoiceWith(db, k);
      GroupIsKnown(db, k);
      MemberRank(db, rank, g, k);
      SameExclusive(db, rank, a, b, n, g);
      SameOpt(db, rank, a, b, n, k);
      OnByOpt(a, b, k);
      SameSight(db, rank, a, b, n, k);
    }
  }

  lemma SameExclusive(db: Db, rank: Ranks, a: State, b: State, n: int, g: Group)
    requires Sound(db) && Ranked(db, rank) && Same(db, rank, a, b, n) && GroupRank(db, rank, g) < n
    ensures AtMostOneOn(db, a, g) <==> AtMostOneOn(db, b, g)
    ensures SomeOn(db, a, g) <==> SomeOn(db, b, g)
    ensures Enableable(db, a, g) <==> Enableable(db, b, g)
    ensures MembersOf(db, g) != [] ==> ChoiceOf(a, g) == ChoiceOf(b, g)
  {
    hide Sound, Same, CanEnable, ChoiceOf, OptOf;
    forall m | m in MembersOf(db, g)
      ensures OptOf(a, m) == OptOf(b, m) && (On(a, m) <==> On(b, m)) && ChoiceOf(a, g) == ChoiceOf(b, g)
      ensures CanEnable(db, a, m) <==> CanEnable(db, b, m)
    {
      MemberRank(db, rank, g, m);
      SameOpt(db, rank, a, b, n, m);
      OnByOpt(a, b, m);
      SameSight(db, rank, a, b, n, m);
    }
    if MembersOf(db, g) != [] {
      assert MembersOf(db, g)[0] in MembersOf(db, g);
    }
  }

  lemma MemberRank(db: Db, rank: Ranks, g: Group, m: Key)
    requires Sound(db) && Ranked(db, rank) && m in MembersOf(db, g)
    ensures m in db.decls && DeclOf(db, m).group == Some(g) && RankOf(rank, m) == GroupRank(db, rank, g)
  {
    hide Sound;
    var x := MembersOf(db, g)[0];
    SameChoice(db, g, m, x);
    SameChoice(db, g, x, m);
  }

  lemma TargetRank(db: Db, rank: Ranks, s: Key, k: Key)
    requires Ranked(db, rank) && Links(db, s, k)
    ensures RankOf(rank, s) < RankOf(rank, k)
    ensures LastCond(db.decls[s].selectIf, k).Some? ==>
              forall i :: i in IfKeys(db.decls[s]) ==> i in db.decls && RankOf(rank, i) < RankOf(rank, k)
  {
    hide IfKeys, IfTargets, LastCond, DependsKeys, DefaultKeys, SameGroup, RankOf;
    LastCondKeys(db, s, k);
  }

  lemma SameLinked(db: Db, rank: Ranks, a: State, b: State, n: int, s: Key, k: Key)
    requires Ranked(db, rank) && Same(db, rank, a, b, n) && RankOf(rank, k) < n && Links(db, s, k)
    ensures OptOf(a, k).selectedBy == OptOf(b, k).selectedBy
    ensures Picks(db, a, s, k) <==> Picks(db, b, s, k)
  {
    hide *;
    TargetRank(db, rank, s, k);
    LinksKnown(db, s, k);
    SameOpt(db, rank, a, b, n, k);
    SameOpt(db, rank, a, b, n, s);
    OnByOpt(a, b, s);
    if LastCond(db.decls[s].selectIf, k).Some? {
      forall i | i in IfKeys(db.decls[s])
        ensures OptOf(a, i) == OptOf(b, i)
      {
        SameOpt(db, rank, a, b, n, i);
      }
      AgreeByOpt(a, b, IfKeys(db.decls[s]));
    }
    SamePicks(db, a, b, s, k);
  }

  lemma LinksKnown(db: Db, s: Key, k: Key)
    requires Links(db, s, k)
    ensures s in db.decls && k in db.decls && k in Targets(db.decls[s])
  {
  }

  lemma OnByOpt(a: State, b: State, k: Key)
    requires OptOf(a, k) == OptOf(b, k)
    ensures On(a, k) <==> On(b, k)
    ensures ValueOf(a, k) == ValueOf(b, k)
  {
  }

  lemma AgreeByOpt(a: State, b: State, ks: set<Key>)
    requires forall i :: i in ks ==> OptOf(a, i) == OptOf(b, i)
    ensures Agree(a, b, ks)
  {
  }

  /** b differs from a in the records of one option and its choice at most. */
  ghost predicate Touched(db: Db, a: State, b: State, key: Key) {
    && (forall x :: x != key ==> OptOf(a, x) == OptOf(b, x))
    && (forall g :: DeclOf(db, key).group != Some(g) ==> ChoiceOf(a, g) == ChoiceOf(b, g))
  }

  /** A change of one option leaves alone the facts of higher levels that do not look at
      its value. */
  lemma TouchKeeps(db: Db, rank: Ranks, a: State, b: State, key: Key, f: Fact)
    requires Sound(db) && Ranked(db, rank) && Touched(db, a, b, key) && LevelOf(db, rank, f) > RankOf(rank, key)
    requires ValueOf(a, key) == ValueOf(b, key) || !Dirty(db, f, key)
    ensures Good(db, a, f) <==> Good(db, b, f)
  {
    hide Sound, Ranked, CanEnable, DefaultOf, OptOf, Meets, Picks, Links, DependsKeys, DefaultKeys, RankOf;
    hide AtMostOneOn, SomeOn, Enableable, Steady, Grips, Wished, Rivalled, ChoiceWith;
    match f
    case Exclusive(g) => TouchedExclusive(db, rank, a, b, key, g);
    case Recorded(g) => TouchedExclusive(db, rank, a, b, key, g);
    case Chosen(g) =>
      TouchedExclusive(db, rank, a, b, key, g);
      TouchedEnable(db, a, b, key, g);
    case Linked(s, k) =>
      if Links(db, s, k) {
        TouchedLinked(db, a, b, key, s, k);
      }
    case Forced(k) => OnByOpt(a, b, k);
    case Unset(k) =>
    case Picked(k) => TouchedMember(db, rank, a, b, key, k);
    case Asked(k) =>
      if k in db.decls {
        TouchedSight(db, a, b, key, k);
        SameMeets(db, a, b, k, OptOf(a, k).requested);
        TouchedMember(db, rank, a, b, key, k);
      }
    case Defaulted(k) =>
      if Free(db, k) {
        TouchedSight(db, a, b, key, k);
        SameMeets(db, a, b, k, Some(DefaultOf(db, a, k)));
      }
  }

  lemma TouchedExclusive(db: Db, rank: Ranks, a: State, b: State, key: Key, g: Group)
    requires Sound(db) && Ranked(db, rank) && Touched(db, a, b, key) && GroupRank(db, rank, g) > RankOf(rank, key)
    ensures AtMostOneOn(db, a, g) <==> AtMostOneOn(db, b, g)
    ensures SomeOn(db, a, g) <==> SomeOn(db, b, g)
    ensures MembersOf(db, g) != [] ==> ChoiceOf(a, g) == ChoiceOf(b, g)
  {
    hide Sound, Ranked, OptOf, ChoiceOf, RankOf;
    forall m | m in MembersOf(db, g)
      ensures OptOf(a, m) == OptOf(b, m) && (On(a, m) <==> On(b, m)) && ChoiceOf(a, g) == ChoiceOf(b, g)
    {
      MemberRank(db, rank, g, m);
      OnByOpt(a, b, m);
      NotMember(db, rank, g, key);
    }
    if MembersOf(db, g) != [] {
      assert MembersOf(db, g)[0] in MembersOf(db, g);
    }
  }

  lemma TouchedMember(db: Db, rank: Ranks, a: State, b: State, key: Key, k: Key)
    requires Sound(db) && Ranked(db, rank) && Touched(db, a, b, key) && RankOf(rank, k) > RankOf(rank, key)
    ensures Alone(db, k) ==> (Grips(db, a, ChoiceWith(db, k), k) <==> Grips(db, b, ChoiceWith(db, k), k))
    ensures Alone(db, k) && (CanEnable(db, a, k) <==> CanEnable(db, b, k)) ==> (Wished(db, a, k) <==> Wished(db, b, k))
  {
    hide Sound, Ranked, CanEnable, OptOf, AtMostOneOn, SomeOn, Rivalled, ChoiceOf, RankOf;
    if Alone(db, k) {
      var g := ChoiceWith(db, k);
      GroupIsKnown(db, k);
      MemberRank(db, rank, g, k);
      TouchedExclusive(db, rank, a, b, key, g);
      OnByOpt(a, b, k);
    }
  }

  lemma NotMember(db: Db, rank: Ranks, g: Group, key: Key)
    requires Sound(db) && Ranked(db, rank) && GroupRank(db, rank, g) > RankOf(rank, key)
    ensures DeclOf(db, key).group != Some(g)
  {
    hide Ranked, RankOf;
    if DeclOf(db, key).group == Some(g) {
      GroupIsKnown(db, key);
      MemberRank(db, rank, g, key);
    }
  }

  lemma TouchedEnable(db: Db, a: State, b: State, key: Key, g: Group)
    requires Touched(db, a, b, key) && (ValueOf(a, key) == ValueOf(b, key) || !Dirty(db, Chosen(g), key))
    ensures Enableable(db, a, g) <==> Enableable(db, b, g)
  {
    hide CanEnable, OptOf, Touched, DependsKeys, ValueOf;
    forall m | m in MembersOf(db, g)
      ensures CanEnable(db, a, m) <==> CanEnable(db, b, m)
    {
      TouchedSight(db, a, b, key, m);
    }
  }

  lemma TouchedAgree(db: Db, a: State, b: State, key: Key, ks: set<Key>)
    requires Touched(db, a, b, key) && (ValueOf(a, key) == ValueOf(b, key) || key !in ks)
    ensures Agree(a, b, ks)
  {
  }

  lemma TouchedSight(db: Db, a: State, b: State, key: Key, k: Key)
    requires Touched(db, a, b, key)
    ensures ValueOf(a, key) == ValueOf(b, key) || key !in DependsKeys(db, k) ==>
              (CanEnable(db, a, k) <==> CanEnable(db, b, k))
    ensures ValueOf(a, key) == ValueOf(b, key) || key !in DefaultKeys(db, k) ==>
              DefaultOf(db, a, k) == DefaultOf(db, b, k)
  {
    hide *;
    OptionFrame(db, a, b, k);
    if ValueOf(a, key) == ValueOf(b, key) || key !in DependsKeys(db, k) {
      TouchedAgree(db, a, b, key, DependsKeys(db, k));
    }
    if ValueOf(a, key) == ValueOf(b, key) || key !in DefaultKeys(db, k) {
      TouchedAgree(db, a, b, key, DefaultKeys(db, k));
    }
  }

  lemma TouchedLinked(db: Db, a: State, b: State, key: Key, s: Key, k: Key)
    requires Touched(db, a, b, key) && Links(db, s, k)
    requires ValueOf(a, key) == ValueOf(b, key) || !Dirty(db, Linked(s, k), key)
    ensures Picks(db, a, s, k) <==> Picks(db, b, s, k)
  {
    hide Picks, LastCond, IfKeys, Targets;
    TouchedAgree(db, a, b, key, {s});
    if LastCond(db.decls[s].selectIf, k).Some? {
      TouchedAgree(db, a, b, key, IfKeys(db.decls[s]));
    }
    SamePicks(db, a, b, s, k);
  }

  /*** The facts of the level itself ***/

  /** b comes from a by a change on the level of key that keeps the shape, keeps the choice
      exclusive and does not empty it, changes no selectors, and marks nothing as set unless
      the user asks. */
  ghost predicate OwnStep(db: Db, a: State, b: State, key: Key, user: bool) {
    && Shape(db, b) && OnlyLevel(db, a, b, key)
    && (forall x :: OptOf(b, x).selectedBy == OptOf(a, x).selectedBy)
    && (user || forall x :: OptOf(b, x).userSet == OptOf(a, x).userSet)
    && (forall g :: DeclOf(db, key).group == Some(g) ==>
          (AtMostOneOn(db, a, g) ==> AtMostOneOn(db, b, g)) && FullOrSame(db, a, b, g) && Firm(db, a, b, g))
  }

  lemma OnLevelBelow(db: Db, rank: Ranks, a: State, b: State, key: Key)
    requires Ranked(db, rank) && OnlyLevel(db, a, b, key) && key in db.decls
    ensures Same(db, rank, a, b, RankOf(rank, key))
  {
    hide Ranked, RankOf;
    forall x | x in db.decls && RankOf(rank, x) < RankOf(rank, key)
      ensures SameAt(db, a, b, x)
    {
      OtherLevel(db, rank, x, key);
    }
  }

  lemma OtherLevel(db: Db, rank: Ranks, x: Key, key: Key)
    requires Ranked(db, rank) && x in db.decls && key in db.decls && RankOf(rank, x) != RankOf(rank, key)
    ensures x != key && !SameGroup(db, x, key)
  {
    hide RankOf, DependsKeys, DefaultKeys, IfKeys, IfTargets, Targets;
  }

  lemma SameLevel(db: Db, rank: Ranks, x: Key, key: Key)
    requires Ranked(db, rank) && x in db.decls && key in db.decls && RankOf(rank, x) == RankOf(rank, key)
    ensures x == key || SameGroup(db, x, key)
  {
    hide RankOf, DependsKeys, DefaultKeys, IfKeys, IfTargets, Targets;
  }

  lemma AloneOnLevel(db: Db, rank: Ranks, k: Key, key: Key)
    requires Ranked(db, rank) && key in db.decls && RankOf(rank, k) == RankOf(rank, key)
    ensures Free(db, k) ==> k == key
  {
    hide RankOf, DependsKeys, DefaultKeys, IfKeys, IfTargets, Targets;
  }

  lemma OwnStepKeeps(db: Db, rank: Ranks, a: State, b: State, key: Key, user: bool, f: Fact)
    requires Sound(db) && Ranked(db, rank) && key in db.decls && OwnStep(db, a, b, key, user)
    requires LevelOf(db, rank, f) <= RankOf(rank, key) && !Own(db, f, key, user)
    requires f == Forced(key) ==> !Free(db, key)
    requires Good(db, a, f)
    ensures Good(db, b, f)
  {
    hide Ranked, Sound, Same, Meets, Links, Picks, Shape, OnlyLevel, RankOf, AtMostOneOn, FullOrSame, SomeOn, Full;
    hide Steady, Firm, Grips, Rivalled, AsAsked;
    OnLevelBelow(db, rank, a, b, key);
    if LevelOf(db, rank, f) < RankOf(rank, key) {
      SameGood(db, rank, a, b, RankOf(rank, key), f);
    } else {
      match f
      case Exclusive(g) => OwnChoice(db, rank, a, b, key, g);
      case Recorded(g) => OwnChoice(db, rank, a, b, key, g);
      case Chosen(g) => OwnChoice(db, rank, a, b, key, g);
      case Linked(s, k) =>
        if Links(db, s, k) {
          OwnLinked(db, rank, a, b, key, s, k);
        }
      case Picked(k) => OwnFirm(db, rank, a, b, key, k);
      case Forced(k) =>
        AloneOnLevel(db, rank, k, key);
        OwnFirm(db, rank, a, b, key, k);
      case Asked(k) => OwnAsked(db, rank, a, b, key, k);
      case Defaulted(k) => AloneOnLevel(db, rank, k, key);
      case Unset(k) =>
        if k in db.decls {
          SameLevel(db, rank, k, key);
        }
    }
  }

  lemma OwnAsked(db: Db, rank: Ranks, a: State, b: State, key: Key, k: Key)
    requires Ranked(db, rank) && key in db.decls && RankOf(rank, k) == RankOf(rank, key)
    requires k != key && !SameGroup(db, k, key)
    ensures AsAsked(db, b, k)
  {
    hide Ranked, RankOf, Rivalled, Grips, Wished;
    if k in db.decls {
      SameLevel(db, rank, k, key);
    }
  }

  lemma OwnFirm(db: Db, rank: Ranks, a: State, b: State, key: Key, k: Key)
    requires Sound(db) && Ranked(db, rank) && key in db.decls && RankOf(rank, k) == RankOf(rank, key)
    requires forall g :: DeclOf(db, key).group == Some(g) ==> Firm(db, a, b, g)
    requires forall x :: OptOf(b, x).selectedBy == OptOf(a, x).selectedBy
    ensures Good(db, a, Picked(k)) ==> Good(db, b, Picked(k))
    ensures !Free(db, k) && Good(db, a, Forced(k)) ==> Good(db, b, Forced(k))
  {
    hide Sound, Ranked, RankOf, Rivalled, Grips;
    if k in db.decls && DeclOf(db, k).group.Some? {
      SameLevel(db, rank, k, key);
      GroupIsKnown(db, k);
    }
  }

  lemma OwnChoice(db: Db, rank: Ranks, a: State, b: State, key: Key, g: Group)
    requires Sound(db) && Ranked(db, rank) && key in db.decls && OnlyLevel(db, a, b, key)
    requires DeclOf(db, key).group == Some(g) ==>
               (AtMostOneOn(db, a, g) ==> AtMostOneOn(db, b, g)) && FullOrSame(db, a, b, g)
    requires GroupRank(db, rank, g) == RankOf(rank, key)
    ensures AtMostOneOn(db, a, g) ==> AtMostOneOn(db, b, g)
    ensures MembersOf(db, g) != [] && (ChoiceOf(a, g).selected.Some? ==> SomeOn(db, a, g)) ==>
              ChoiceOf(b, g).selected.Some? ==> SomeOn(db, b, g)
    ensures MembersOf(db, g) != [] && Full(db, a, g) ==> Full(db, b, g)
  {
    hide Sound, Ranked, RankOf, OnlyLevel, SomeOn, Enableable, ChoiceOf;
    if MembersOf(db, g) == [] {
      assert AtMostOneOn(db, b, g);
    } else {
      MemberRank(db, rank, g, MembersOf(db, g)[0]);
      SameLevel(db, rank, MembersOf(db, g)[0], key);
      if forall x :: ValueOf(a, x) == ValueOf(b, x) {
        SameValuesFull(db, a, b, g);
      }
    }
  }

  lemma OwnLinked(db: Db, rank: Ranks, a: State, b: State, key: Key, s: Key, k: Key)
    requires Ranked(db, rank) && Same(db, rank, a, b, RankOf(rank, key)) && Links(db, s, k) &&
             RankOf(rank, k) == RankOf(rank, key)
    ensures Picks(db, a, s, k) <==> Picks(db, b, s, k)
  {
    hide *;
    TargetRank(db, rank, s, k);
    LinksKnown(db, s, k);
    SameOpt(db, rank, a, b, RankOf(rank, key), s);
    OnByOpt(a, b, s);
    if LastCond(db.decls[s].selectIf, k).Some? {
      forall i | i in IfKeys(db.decls[s])
        ensures OptOf(a, i) == OptOf(b, i)
      {
        SameOpt(db, rank, a, b, RankOf(rank, key), i);
      }
      AgreeByOpt(a, b, IfKeys(db.decls[s]));
    }
    SamePicks(db, a, b, s, k);
  }
}
