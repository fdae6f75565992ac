/** The configuration of a database of options, updated in place. */
module ConfigSystems {
  import opened Wrappers
  import opened Options
  import opened Choices
  import opened Levels
  import opened Consistency
  import opened Effects
  import opened Indices
  import opened Propagation
  import opened Settings

  class ConfigSystem {
    const db: Db
    ghost const rank: Ranks
    ghost const top: nat
    var opts: map<Key, Opt>
    var choices: map<Group, Choice>
    var rdepends: Index
    var rdefault: Index
    var rselectIf: Index

    function State(): State
      reads `opts, `choices
    {
      Options.State(opts, choices)
    }

    /** The database has no cycles: top is above all its levels. */
    ghost predicate Layered() {
      Sound(db) && Ranked(db, rank) && forall k :: k in db.decls ==> RankOf(rank, k) < top
    }

    ghost predicate Ready()
      reads this
    {
      && Layered() && Shape(db, State())
      && DependsIndexed(db, rdepends) && DefaultIndexed(db, rdefault) && SelectIfIndexed(db, rselectIf)
    }

    lemma LayeredIs()
      requires Layered()
      ensures Sound(db) && Ranked(db, rank) && forall k :: k in db.decls ==> RankOf(rank, k) < top
    {
    }

    lemma ReadyIs()
      requires Ready()
      ensures Sound(db) && Ranked(db, rank) && Shape(db, State())
      ensures forall k :: k in db.decls ==> RankOf(rank, k) < top
    {
      hide Sound, Ranked, Shape, DependsIndexed, DefaultIndexed, SelectIfIndexed, RankOf;
    }

    /*** Fields ***/

    method Assign(k: Key, v: Value)
      requires Ready() && k in db.decls && HasType(v, DeclOf(db, k).datatype_)
      modifies `opts
      ensures Ready() && State() == Put(old(State()), k, v)
      ensures Touched(db, old(State()), State(), k)
    {
      hide ConfigSystem.Layered, Sound, Shape, Touched, DependsIndexed;
      hide DefaultIndexed, SelectIfIndexed, OnlyLevel, OptOf;
      PutStep(db, State(), k, v);
      PutTouches(db, State(), k, v);
      InShape(db, State(), k);
      opts := opts[k := opts[k].(value := v)];
    }

    method Choose(g: Group, k: Option<Key>)
      requires Ready() && g in db.members && (k.Some? ==> k.value in MembersOf(db, g))
      modifies `choices
      ensures Ready() && State() == Select(old(State()), g, k)
      ensures forall h :: h != g ==> ChoiceOf(State(), h) == ChoiceOf(old(State()), h)
      ensures forall x :: OptOf(State(), x) == OptOf(old(State()), x)
    {
      hide ConfigSystem.Layered, Sound, Shape, Touched, DependsIndexed;
      hide DefaultIndexed, SelectIfIndexed, OptOf, ChoiceOf;
      SelectStep(db, State(), g, k);
      ChoiceInShape(db, State(), g);
      choices := choices[g := choices[g].(selected := k)];
    }

    /** Records that the user set the option, and to what. */
    method Flag(k: Key, v: Value, user: bool)
      requires Ready() && k in db.decls && HasType(v, DeclOf(db, k).datatype_)
      modifies `opts, `choices
      ensures Ready() && State() == Flagged(db, old(State()), k, v, user)
      ensures Touched(db, old(State()), State(), k) && ValueOf(State(), k) == ValueOf(old(State()), k)
    {
      hide ConfigSystem.Layered, Sound, Shape, Touched, DependsIndexed, DefaultIndexed;
      hide SelectIfIndexed, OnlyLevel, OptOf, ChoiceOf;
      ghost var st := State();
      assert Sound(db) by { LayeredIs(); }
      FlaggedStep(db, st, k, v, user);
      FlaggedTouches(db, st, k, v, user);
      InShape(db, st, k);
      opts := opts[k := opts[k].(userSet := opts[k].userSet || user)];
      if user {
        match DeclOf(db, k).group
        case Some(g) =>
          if v == B(true) {
            GroupIsKnown(db, k);
            ChoiceInShape(db, st, g);
            choices := choices[g := choices[g].(requested := Some(k))];
          }
        case None =>
          opts := opts[k := opts[k].(requested := Some(v))];
          assert opts == st.opts[k := opts[k]];
      }
    }

    method SetSelectors(k: Key, sel: set<Key>)
      requires Ready() && k in db.decls
      requires forall s :: s in sel ==> s in db.decls && k in Targets(db.decls[s])
      modifies `opts
      ensures Ready() && State() == WithSelectors(old(State()), k, sel)
      ensures Touched(db, old(State()), State(), k) && ValueOf(State(), k) == ValueOf(old(State()), k)
    {
      hide ConfigSystem.Layered, Sound, Shape, Touched, DependsIndexed;
      hide DefaultIndexed, SelectIfIndexed, OnlyLevel, OptOf;
      SelectorsStep(db, State(), k, sel);
      InShape(db, State(), k);
      opts := opts[k := opts[k].(selectedBy := sel)];
    }

    /*** Assignments ***/

    /** Sets an option and brings all that depends on it up to date. Values of another type
        and values the option cannot take now change nothing but the record of the request. */
    method SetConfig(key: Key, value: Value, user: bool)
      requires Ready() && (key in db.decls ==> HasType(value, DeclOf(db, key).datatype_))
      requires Exclusives(db, rank, State(), RankOf(rank, key) + 1)
      requires forall g :: DeclOf(db, key).group == Some(g) && value == B(true) ==> AtMostOneOn(db, State(), g)
      modifies `opts, `choices
      ensures Ready()
      ensures key in db.decls && Blocked(db, Flagged(db, old(State()), key, value, user), key, value) &&
              Accepts(db, key, value) ==>
                State() == Flagged(db, old(State()), key, value, user)
      ensures key !in db.decls ==> State() == old(State())
      ensures key in db.decls ==>
                Same(db, rank, SetOwn(db, old(State()), key, value, user), State(), RankOf(rank, key) + 1)
      ensures key in db.decls ==> Same(db, rank, old(State()), State(), RankOf(rank, key))
      ensures Keeps(db, old(State()), State(), OwnFacts(db, key, user))
      ensures key in db.decls ==> SameWishes(db, Told(db, old(State()), key, value, user), State())
      decreases top - RankOf(rank, key), Phase(db, State(), key, value)
    {
      hide *;
      ghost var a := State();
      ReadyIs();
      KeepsSelf(db, a, OwnFacts(db, key, user));
      if key !in db.decls {
        return;
      }
      ghost var own := SetOwn(db, a, key, value, user);
      ghost var n := RankOf(rank, key) + 1;
      ToldIs(db, a, key, value, user);
      if !Accepts(db, key, value) {
        WishesSelf(db, a);
        IgnoredIs(db, a, key, value, user);
        SameSelf(db, rank, a, n);
        SameSelf(db, rank, a, n - 1);
        return;
      }

      Flag(key, value, user);
      ghost var s := State();
      ReadyIs();
      WishesSelf(db, s);
      TouchKeepsAbove(db, rank, a, s, key);
      if Blocked(db, State(), key, value) {
        BlockedIs(db, a, key, value, user);
        SameSelf(db, rank, s, n);
        SetKeeps(db, rank, a, s, key, value, user);
        return;
      }
      Assign(key, value);
      ghost var p := State();
      PutWishes(db, s, key, value);
      PutTouches(db, s, key, value);
      FreeIs(db, key);
      SetOwnIs(db, a, key, value, user);
      SameSelf(db, rank, p, n);
      PhaseDrops(db, a, key, value, user);
      UpToInUpset(db, rank, key);
      KeepsIn(db, a, s, UpTo(db, rank, key), Upset(db, rank, key));
      TouchUpsets(db, rank, s, p, key);
      KeepsOn(db, a, s, p, Upset(db, rank, key));
      ExclusiveAbove(db, rank, a, p, key);
      FlaggedValues(db, a, key, value, user);

      if DeclOf(db, key).group.Some? {
        var ok := RegroupChoice(DeclOf(db, key).group.value, key, value, user);
        KeepsOn(db, a, p, State(), Upset(db, rank, key));
        WishesOn(db, s, p, State());
        if !ok {
          if Displaceable(db, key) {
            DirtyIsVoid(db, State(), key);
            RepairedByVoid(db, rank, a, State(), key);
          } else {
            var m :| GaveWay(db, p, State(), key, m);
            SameValueChoice(db, a, s, DeclOf(db, key).group.value);
            GaveWayKeeps(db, rank, s, State(), key, m, DeclOf(db, key).group.value);
            KeepsOn(db, a, s, State(), UpTo(db, rank, key));
          }
          SetKeeps(db, rank, a, State(), key, value, user);
          return;
        }
      }
      ghost var q := State();
      ExclusiveAbove(db, rank, a, q, key);
      Propagate(key, value);
      WishesOn(db, s, q, State());
      SameOn(db, rank, own, q, State(), n);
      Repaired(db, rank, a, q, State(), key);
      SetKeeps(db, rank, a, State(), key, value, user);
    }

    /** The rest of a choice when a member has its new value. Fails when a selected member
        cannot be turned off. */
    method RegroupChoice(g: Group, key: Key, value: Value, user: bool) returns (ok: bool)
      requires Ready() && key in db.decls && DeclOf(db, key).group == Some(g)
      requires (value == B(true) <==> On(State(), key)) && Exclusives(db, rank, State(), RankOf(rank, key) + 1)
      modifies `opts, `choices
      ensures Ready()
      ensures Same(db, rank, Regroup(db, old(State()), g, key, value, user), State(), RankOf(rank, key) + 1)
      ensures Keeps(db, old(State()), State(), Upset(db, rank, key)) && SameWishes(db, old(State()), State())
      ensures !ok ==> value == B(true)
      ensures !ok ==> Displaceable(db, key) || exists m :: GaveWay(db, old(State()), State(), key, m)
      decreases top - RankOf(rank, key), RegroupPhase(db, State(), g, key, value)
    {
      hide *;
      ghost var a := State();
      ghost var n := RankOf(rank, key) + 1;
      ReadyIs();
      RegroupIs(db, a, g, key, value, user);
      UpToInUpset(db, rank, key);
      KeepsSelf(db, a, Upset(db, rank, key));
      SameSelf(db, rank, a, n);
      GroupIsKnown(db, key);
      MemberIs(key);
      WishesSelf(db, a);
      ok := true;
      if value == B(true) {
        Choose(g, Some(key));
        ghost var q := State();
        SelectWishes(db, a, g, Some(key));
        ChoiceOn(db, rank, a, q, g, key, Some(key));
        KeepsIn(db, a, q, UpTo(db, rank, key), Upset(db, rank, key));
        OnByOpt(a, q, key);
        ExclusiveAbove(db, rank, a, q, key);
        ok := UnsetOtherMembers(g, key, user);
        WishesOn(db, a, q, State());
        if !ok && !Displaceable(db, key) {
          var m :| GaveWay(db, q, State(), key, m);
          GaveWayFrom(db, a, q, State(), g, key, m);
        }
        KeepsOn(db, a, q, State(), Upset(db, rank, key));
      } else if !OtherOn(State(), MembersOf(db, g), key) {
        if CanEnable(db, State(), key) {
          Choose(g, Some(key));
          ghost var q := State();
          ChoiceOn(db, rank, a, q, g, key, Some(key));
          KeepsIn(db, a, q, UpTo(db, rank, key), Upset(db, rank, key));
          Assign(key, B(true));
          SelectWishes(db, a, g, Some(key));
          PutWishes(db, q, key, B(true));
          WishesOn(db, a, q, State());
          TouchUpsets(db, rank, q, State(), key);
          KeepsOn(db, a, q, State(), Upset(db, rank, key));
          SameSelf(db, rank, State(), n);
        } else {
          Choose(g, None);
          ghost var q := State();
          ChoiceOn(db, rank, a, q, g, key, None);
          KeepsIn(db, a, q, UpTo(db, rank, key), Upset(db, rank, key));
          ExclusiveAbove(db, rank, a, q, key);
          AllOff(db, a, g, key);
          SameOptsChoice(db, a, q, g);
          UpdateChoiceDefault(g, key);
          SelectWishes(db, a, g, None);
          WishesOn(db, a, q, State());
          EmptyIn(Upset(db, rank, key));
          KeepsIn(db, q, State(), iset{}, Upset(db, rank, key));
          KeepsOn(db, a, q, State(), Upset(db, rank, key));
        }
      }
    }

    lemma MemberIs(key: Key)
      requires Ready() && key in db.decls && DeclOf(db, key).group.Some?
      ensures var g := DeclOf(db, key).group.value;
              forall m :: m in MembersOf(db, g) ==>
                m in db.decls && DeclOf(db, m).group == Some(g) && DeclOf(db, m).datatype_ == BoolType
                && !Free(db, m) && RankOf(rank, m) == RankOf(rank, key)
      ensures HasType(B(true), DeclOf(db, key).datatype_) && HasType(B(false), DeclOf(db, key).datatype_)
    {
      hide Sound, Ranked, Shape, DependsIndexed, DefaultIndexed, SelectIfIndexed, RankOf;
      var g := DeclOf(db, key).group.value;
      GroupIsKnown(db, key);
      forall m | m in MembersOf(db, g)
        ensures m in db.decls && DeclOf(db, m).group == Some(g) && DeclOf(db, m).datatype_ == BoolType
        ensures RankOf(rank, m) == RankOf(rank, key)
      {
        SameChoice(db, g, key, m);
        MemberRank(db, rank, g, m);
        MemberRank(db, rank, g, key);
      }
    }

    /** Turns off the members other than key. One that is selected stays on, and key then
        gives way to it. */
    method UnsetOtherMembers(g: Group, key: Key, user: bool) returns (ok: bool)
      requires Ready() && key in db.decls && DeclOf(db, key).group == Some(g) && On(State(), key)
      requires Exclusives(db, rank, State(), RankOf(rank, key) + 1)
      modifies `opts, `choices
      ensures Ready()
      ensures Same(db, rank, UnsetOthers(db, old(State()), key, MembersOf(db, g), user), State(), RankOf(rank, key) + 1)
      ensures Keeps(db, old(State()), State(), Upset(db, rank, key)) && SameWishes(db, old(State()), State())
      ensures !ok ==> Displaceable(db, key) || exists m :: GaveWay(db, old(State()), State(), key, m)
      decreases top - RankOf(rank, key), 4
    {
      hide *;
      ghost var a := State();
      ghost var n := RankOf(rank, key) + 1;
      ReadyIs();
      GroupIsKnown(db, key);
      MemberIs(key);
      var ms := MembersOf(db, g);
      ghost var goal := UnsetOthers(db, a, key, ms, user);
      KeepsSelf(db, a, Upset(db, rank, key));
      SameSelf(db, rank, goal, n);
      EmptyIn(Upset(db, rank, key));
      WishesSelf(db, a);
      assert ms[0..] == ms;
      var i := 0;
      while i < |ms|
        invariant 0 <= i <= |ms|
        invariant Ready() && On(State(), key)
        invariant Same(db, rank, goal, UnsetOthers(db, State(), key, ms[i..], user), n)
        invariant Keeps(db, a, State(), Upset(db, rank, key)) && SameWishes(db, a, State())
        invariant State() == a || exists j :: 0 <= j < i && ms[j] != key
      {
        ghost var s := State();
        var m := ms[i];
        UnsetOthersStepIs(db, s, key, ms, i, user);
        if m != key {
          ghost var t := UnsetOne(db, s, m, user);
          OffIsUnset(db, s, g, key, m, user);
          ReadyIs();
          OffPhase(s, m);
          ExclusiveAbove(db, rank, a, s, key);
          BoolsAre();
          SetConfig(m, B(false), user);
          ToldOff(db, s, m, user);
          WishesOn(db, s, Told(db, s, m, B(false), user), State());
          WishesOn(db, a, s, State());
          OwnIsUpset(key, m, user);
          KeepsIn(db, s, State(), OwnFacts(db, m, user), Upset(db, rank, key));
          KeepsOn(db, a, s, State(), Upset(db, rank, key));
          SameOpt(db, rank, t, State(), n, m);
          SameOpt(db, rank, t, State(), n, key);
          UnsetOneElse(db, s, m, user, key);
          OnByOpt(t, State(), m);
          OnByOpt(s, State(), key);
          if On(State(), m) {
            StuckIsSelected(db, s, g, m, user);
            BoolIsAccepted(db, m);
            ghost var u := State();
            if s == a {
              GivesWay(db, a, g, key, m, user);
            } else {
              ghost var j :| 0 <= j < i && ms[j] != key;
              DisplacedBy(db, g, key, j, i);
            }
            Assign(key, B(false));
            PutWishes(db, u, key, B(false));
            WishesOn(db, a, u, State());
            SamePut(db, rank, t, u, n, key, B(false));
            SameOn(db, rank, goal, Put(t, key, B(false)), State(), n);
            TouchUpsets(db, rank, u, State(), key);
            KeepsOn(db, a, u, State(), Upset(db, rank, key));
            return false;
          }
          SameUnsetOthers(db, rank, t, State(), n, key, ms[i + 1..], user);
          SameOn(db, rank, goal, UnsetOthers(db, t, key, ms[i + 1..], user),
                 UnsetOthers(db, State(), key, ms[i + 1..], user), n);
        }
        i := i + 1;
      }
      assert ms[i..] == [];
      NoOthers(db, State(), key, user);
      return true;
    }

    lemma BoolIsAccepted(db: Db, k: Key)
      ensures DeclOf(db, k).datatype_ == BoolType ==> Accepts(db, k, B(false))
    {
    }

    lemma SameValueChoice(db: Db, a: State, b: State, g: Group)
      requires AtMostOneOn(db, a, g) && forall x :: ValueOf(b, x) == ValueOf(a, x)
      ensures AtMostOneOn(db, b, g)
    {
    }

    lemma SameOptsChoice(db: Db, a: State, b: State, g: Group)
      requires AtMostOneOn(db, a, g) && forall x :: OptOf(b, x) == OptOf(a, x)
      ensures AtMostOneOn(db, b, g)
    {
    }

    lemma OwnIsUpset(key: Key, m: Key, user: bool)
      requires Ranked(db, rank) && m in db.decls && RankOf(rank, m) == RankOf(rank, key)
      ensures OwnFacts(db, m, user) <= Upset(db, rank, key)
    {
      hide Ranked, RankOf, Own, Dirty;
      OwnInUpTo(db, rank, m, user);
    }

    lemma OffPhase(s: State, m: Key)
      requires m in db.decls && forall g :: DeclOf(db, m).group == Some(g) ==> OtherOn(s, MembersOf(db, g), m)
      ensures Phase(db, s, m, B(false)) == 3
    {
    }

    lemma NoOthers(db: Db, s: State, key: Key, user: bool)
      ensures UnsetOthers(db, s, key, [], user) == s
    {
    }

    /** Picks the best default of a choice; member is any of its members. */
    method UpdateChoiceDefault(g: Group, ghost member: Key)
      requires Ready() && member in db.decls && DeclOf(db, member).group == Some(g)
      requires Exclusives(db, rank, State(), RankOf(rank, member) + 1) && AtMostOneOn(db, State(), g)
      modifies `opts, `choices
      ensures Ready()
      ensures Same(db, rank, ChooseDefault(db, old(State()), g), State(), RankOf(rank, member) + 1)
      ensures Keeps(db, old(State()), State(), iset{}) && SameWishes(db, old(State()), State())
      ensures forall x :: x in MembersOf(db, g) && Good(db, old(State()), Picked(x)) ==> Good(db, State(), Asked(x))
      ensures Good(db, old(State()), Recorded(g)) ==> Good(db, State(), Chosen(g))
      decreases top - RankOf(rank, member), 7
    {
      hide *;
      ghost var a := State();
      ReadyIs();
      GroupIsKnown(db, member);
      MemberIs(member);
      BestIs(db, a, g);
      ChooseDefaultIs(db, a, g);
      var ms := MembersOf(db, g);
      var asked := ChoiceOf(State(), g).requested;
      var selection := ChoiceOf(State(), g).selected;
      var best := StartRank(db, State(), g);
      assert ms[0..] == ms;
      var i := 0;
      while i < |ms|
        invariant 0 <= i <= |ms| && State() == a && Ready()
        invariant BestFrom(db, a, asked, ms[i..], selection, best) == Best(db, a, g)
      {
        BestFromStep(db, a, asked, ms, i, selection, best);
        if Some(ms[i]) != selection {
          var r := ChoiceRank(db, State(), ms[i], asked);
          if Lower(r, best) {
            selection, best := Some(ms[i]), r;
          }
        }
        i := i + 1;
      }
      assert ms[i..] == [];
      KeepsSelf(db, a, iset{});
      WishesSelf(db, a);
      SameSelf(db, rank, a, RankOf(rank, member) + 1);
      if selection != ChoiceOf(State(), g).selected {
        OnPhase(a, selection.value);
        SetConfig(selection.value, B(true), false);
        ToldQuietly(db, a, selection.value, B(true));
        WishesOn(db, a, Told(db, a, selection.value, B(true), false), State());
        AskedOfChoice(db, rank, a, State(), g, selection.value);
        InMembers(db, g, selection.value);
        KeepsMember(db, a, State(), selection.value);
      } else {
        AskedOfChoice(db, rank, a, State(), g, member);
      }
      if Good(db, a, Recorded(g)) {
        DefaultFills(db, rank, a, State(), member, g);
      }
    }

    lemma InMembers(db: Db, g: Group, k: Key)
      requires Sound(db) && k in MembersOf(db, g)
      ensures ChoiceWith(db, k) == g && forall x :: SameChoiceAs(db, g, x, k) ==> x in MembersOf(db, g)
    {
      hide Sound;
      SameChoice(db, g, k, k);
    }

    lemma OwnLevels(k: Key)
      ensures LevelOf(db, rank, Asked(k)) == LevelOf(db, rank, Defaulted(k)) == RankOf(rank, k)
      ensures LevelOf(db, rank, Unset(k)) == LevelOf(db, rank, Forced(k)) == RankOf(rank, k)
    {
    }

    lemma OnPhase(s: State, m: Key)
      requires DeclOf(db, m).group.Some?
      ensures Phase(db, s, m, B(true)) == 6
    {
    }

    /** Gives an option its default unless the user set it. */
    method UpdateDefaults(k: Key)
      requires Ready() && k in db.decls && Exclusives(db, rank, State(), RankOf(rank, k))
      modifies `opts, `choices
      ensures Ready()
      ensures Same(db, rank, DefaultOwn(db, old(State()), k), State(), RankOf(rank, k) + 1)
      ensures Same(db, rank, old(State()), State(), RankOf(rank, k))
      ensures Keeps(db, old(State()), State(), iset{}) && Good(db, State(), Defaulted(k))
      ensures SameWishes(db, old(State()), State())
      ensures !OptOf(old(State()), k).userSet ==>
                forall g :: DeclOf(db, k).group == Some(g) && Good(db, old(State()), Recorded(g)) ==>
                  Good(db, State(), Chosen(g))
      ensures DeclOf(db, k).group.Some? && !OptOf(old(State()), k).userSet && Good(db, old(State()), Picked(k)) ==>
                Good(db, State(), Asked(k))
      decreases top - RankOf(rank, k), 10
    {
      hide *;
      ghost var a := State();
      ghost var n := RankOf(rank, k) + 1;
      ReadyIs();
      ExclusiveAt(db, rank, a, k);
      WishesSelf(db, a);
      DefaultOwnIs(db, a, k);
      DefaultOwnSettles(db, rank, a, k);
      if OptOf(State(), k).userSet {
        SameSelf(db, rank, a, n);
        KeepsSelf(db, a, iset{});
      } else if DeclOf(db, k).group.Some? {
        GroupIsKnown(db, k);
        UpdateChoiceDefault(DeclOf(db, k).group.value, k);
      } else {
        var v := DefaultValue(k);
        DefaultHasType(db, a, k);
        PhaseIsSmall(db, a, k, v);
        SetConfig(k, v, false);
        ToldQuietly(db, a, k, v);
        WishesOn(db, a, Told(db, a, k, v, false), State());
        FreeIs(db, k);
        DefaultSettles(db, rank, a, k);
        OwnLevels(k);
        SameGood(db, rank, DefaultOwn(db, a, k), State(), n, Asked(k));
        SameGood(db, rank, DefaultOwn(db, a, k), State(), n, Defaulted(k));
        SameGood(db, rank, DefaultOwn(db, a, k), State(), n, Unset(k));
        KeepsWith(db, a, State(), k, false);
      }
      OwnLevels(k);
      SameGood(db, rank, DefaultOwn(db, a, k), State(), n, Defaulted(k));
      DefaultBelow(db, rank, a, State(), k);
    }

    method DefaultValue(k: Key) returns (v: Value)
      ensures v == DefaultOf(db, State(), k)
    {
      var d := DeclOf(db, k);
      var i := 0;
      while i < |d.defaultCond|
        invariant 0 <= i <= |d.defaultCond|
        invariant DefaultFrom(State(), d.defaultCond[i..], d.default, d.datatype_) == DefaultOf(db, State(), k)
      {
        if Holds(State(), d.defaultCond[i].0) {
          return ExprResult(State(), d.defaultCond[i].1);
        }
        i := i + 1;
      }
      if d.default.Some? {
        return ExprResult(State(), d.default.value);
      }
      return Zero(d.datatype_);
    }

    /** Records whether src selects k, and sets k accordingly. */
    method ForceConfig(k: Key, v: bool, src: Key)
      requires Ready() && src in db.decls && k in Targets(db.decls[src])
      requires k in db.decls ==> Exclusives(db, rank, State(), RankOf(rank, k))
      modifies `opts, `choices
      ensures Ready()
      ensures k !in db.decls ==> State() == old(State())
      ensures k in db.decls ==> Same(db, rank, Force(db, old(State()), k, v, src), State(), RankOf(rank, k) + 1)
      ensures k in db.decls ==> Same(db, rank, old(State()), State(), RankOf(rank, k))
      ensures k in db.decls ==> (src in OptOf(State(), k).selectedBy <==> v)
      ensures Keeps(db, old(State()), State(), LinkFacts(src, k)) && SameWishes(db, old(State()), State())
      decreases if k in db.decls then top - RankOf(rank, k) else 0, 11
    {
      hide *;
      ghost var a := State();
      ghost var n := RankOf(rank, k) + 1;
      ReadyIs();
      KeepsSelf(db, a, LinkFacts(src, k));
      WishesSelf(db, a);
      if k !in db.decls {
        return;
      }
      var sel := OptOf(State(), k).selectedBy;
      ForceIs(db, a, k, v, src);
      KeepsSelf(db, a, UpTo(db, rank, k));
      SameSelf(db, rank, a, n);
      NewSelectors(db, a, k, v, src);
      if v {
        if src in sel {
          ForcedKeeps(db, rank, a, a, k, v, src);
          return;
        }
        SetSelectors(k, sel + {src});
      } else if src in sel {
        SetSelectors(k, sel - {src});
      } else {
        ForcedKeeps(db, rank, a, a, k, v, src);
        return;
      }
      ghost var s := State();
      SelectorWishes(db, a, k, if v then sel + {src} else sel - {src});
      TouchKeepsAbove(db, rank, a, s, k);
      ForceIs(db, s, k, v, src);
      ReadyIs();
      WithSelectorsIs(a, k, if v then sel + {src} else sel - {src});
      ExclusiveValues(db, rank, a, s, n - 1);
      ExclusiveAt(db, rank, s, k);
      TypedAsked(db, s, k);
      if OptOf(State(), k).selectedBy != {} {
        PhaseIsSmall(db, s, k, B(true));
        SetConfig(k, B(true), false);
        ToldQuietly(db, s, k, B(true));
        WishesOn(db, s, Told(db, s, k, B(true), false), State());
        OwnInUpTo(db, rank, k, false);
        KeepsIn(db, s, State(), OwnFacts(db, k, false), UpTo(db, rank, k));
      } else if OptOf(State(), k).requested.Some? {
        PhaseIsSmall(db, s, k, OptOf(State(), k).requested.value);
        SetConfig(k, OptOf(State(), k).requested.value, true);
        ToldAgain(db, s, k);
        WishesOn(db, s, Told(db, s, k, OptOf(s, k).requested.value, true), State());
        OwnInUpTo(db, rank, k, true);
        KeepsIn(db, s, State(), OwnFacts(db, k, true), UpTo(db, rank, k));
      } else {
        UpdateDefaults(k);
        EmptyIn(UpTo(db, rank, k));
        KeepsIn(db, s, State(), iset{}, UpTo(db, rank, k));
      }
      WishesOn(db, a, s, State());
      KeepsOn(db, a, s, State(), UpTo(db, rank, k));
      ForcedKeeps(db, rank, a, State(), k, v, src);
    }

    /** Forces what s selects under conditions, all of which is above level bound. */
    method SetSelectIfs(s: Key, ghost bound: int)
      requires Ready() && s in db.decls && bound < top && Exclusives(db, rank, State(), bound + 1)
      requires forall k :: k in IfTargets(db.decls[s]) && k in db.decls ==> RankOf(rank, k) > bound
      modifies `opts, `choices
      ensures Ready()
      ensures Same(db, rank, old(State()), State(), bound + 1)
      ensures Keeps(db, old(State()), State(), iset{}) && SameWishes(db, old(State()), State())
      ensures forall k :: k in IfTargets(db.decls[s]) ==> Good(db, State(), Linked(s, k))
      decreases top - bound, 0
    {
      hide *;
      ghost var a := State();
      ReadyIs();
      RanksOfIf(db, rank, s);
      KeepsSelf(db, a, IfLinks(db, s));
      WishesSelf(db, a);
      SameSelf(db, rank, a, bound + 1);
      var list := db.decls[s].selectIf;
      var value := On(State(), s);
      IfTargetsAll(s);
      var i := 0;
      while i < |list|
        invariant 0 <= i <= |list| && Ready()
        invariant On(State(), s) == value
        invariant Same(db, rank, a, State(), bound + 1)
        invariant Keeps(db, a, State(), IfLinks(db, s)) && SameWishes(db, a, State())
        invariant forall k :: k in IfTargets(db.decls[s]) && NotIn(list, i, k) ==> Good(db, State(), Linked(s, k))
      {
        ghost var b := State();
        var k, c := list[i].0, list[i].1;
        ReadyIs();
        ExclusiveLinked(db, rank, a, b, s, bound + 1);
        if k in db.decls {
          ExclusiveUp(db, rank, b, bound + 1, RankOf(rank, k));
        }
        if Holds(State(), c) {
          ForceConfig(k, value, s);
        } else {
          ForceConfig(k, false, s);
        }
        WishesOn(db, a, b, State());
        NotInStep(list, i);
        LinkIn(db, s, k);
        KeepsIn(db, b, State(), LinkFacts(s, k), IfLinks(db, s));
        KeepsOn(db, a, b, State(), IfLinks(db, s));
        if k in db.decls {
          ConditionsStay(db, rank, b, State(), s, i);
          SameUpTo(db, rank, b, State(), RankOf(rank, k), bound + 1);
        } else {
          SameSelf(db, rank, b, bound + 1);
        }
        SameOn(db, rank, a, b, State(), bound + 1);
        forall x | x in IfTargets(db.decls[s]) && NotIn(list, i + 1, x)
          ensures Good(db, State(), Linked(s, x))
        {
          if x != k {
            KeepsBut(db, b, State(), s, k, Linked(s, x));
          } else if x in db.decls {
            LinkedNow(db, State(), s, i, x);
          } else {
            UnknownLink(db, State(), s, x);
          }
        }
        i := i + 1;
      }
      AllSeen(list);
      LinksMended(db, a, State(), s);
    }

    lemma IfTargetsAll(s: Key)
      requires s in db.decls
      ensures forall k :: k in IfTargets(db.decls[s]) ==> !NotIn(db.decls[s].selectIf, 0, k)
    {
    }

    lemma NotInStep(list: seq<(Key, Cond)>, i: nat)
      requires i < |list|
      ensures forall k :: NotIn(list, i, k) <==> k != list[i].0 && NotIn(list, i + 1, k)
    {
    }

    lemma AllSeen(list: seq<(Key, Cond)>)
      ensures forall k :: NotIn(list, |list|, k)
    {
    }

    /** Forces what key selects without a condition. */
    method ForceSelected(key: Key, value: Value)
      requires Ready() && key in db.decls && Exclusives(db, rank, State(), RankOf(rank, key) + 1)
      requires Free(db, key) ==> ValueOf(State(), key) == value
      modifies `opts, `choices
      ensures Ready()
      ensures Same(db, rank, old(State()), State(), RankOf(rank, key) + 1)
      ensures Keeps(db, old(State()), State(), IfLinks(db, key)) && SameWishes(db, old(State()), State())
      ensures forall k :: k in db.decls[key].select && k !in IfTargets(db.decls[key]) ==>
                Good(db, State(), Linked(key, k))
      decreases top - RankOf(rank, key), 1
    {
      hide *;
      ghost var a := State();
      ghost var n := RankOf(rank, key) + 1;
      ReadyIs();
      RanksOfIf(db, rank, key);
      KeepsSelf(db, a, SelectLinks(db, key));
      WishesSelf(db, a);
      SameSelf(db, rank, a, n);
      var list := db.decls[key].select;
      var i := 0;
      while i < |list|
        invariant 0 <= i <= |list| && Ready()
        invariant ValueOf(State(), key) == ValueOf(a, key)
        invariant Same(db, rank, a, State(), n)
        invariant Keeps(db, a, State(), SelectLinks(db, key)) && SameWishes(db, a, State())
        invariant forall k :: k in list[..i] && k !in IfTargets(db.decls[key]) ==> Good(db, State(), Linked(key, k))
      {
        ghost var b := State();
        var k := list[i];
        SelectIn(db, key, i);
        ExclusiveLinked(db, rank, a, b, key, n);
        if k in db.decls {
          ExclusiveUp(db, rank, b, n, RankOf(rank, k));
        }
        ForceConfig(k, value == B(true), key);
        WishesOn(db, a, b, State());
        KeepsIn(db, b, State(), LinkFacts(key, k), SelectLinks(db, key));
        KeepsOn(db, a, b, State(), SelectLinks(db, key));
        if k in db.decls {
          SameUpTo(db, rank, b, State(), RankOf(rank, k), n);
        } else {
          SameSelf(db, rank, b, n);
        }
        SameOpt(db, rank, b, State(), n, key);
        OnByOpt(b, State(), key);
        SameOn(db, rank, a, b, State(), n);
        forall x | x in list[..i + 1] && x !in IfTargets(db.decls[key])
          ensures Good(db, State(), Linked(key, x))
        {
          if x != k {
            KeepsBut(db, b, State(), key, k, Linked(key, x));
          } else if x in db.decls {
            PlainLink(db, State(), key, x, value);
          } else {
            UnknownLink(db, State(), key, x);
          }
        }
        i := i + 1;
      }
      LinkedIf(db, a, State(), key);
    }

    /** Options whose dependencies name key go off where they have to, and otherwise back to
        what they should be. */
    method UpdateDependents(key: Key)
      requires Ready() && key in db.decls && Exclusives(db, rank, State(), RankOf(rank, key) + 1)
      modifies `opts, `choices
      ensures Ready()
      ensures Same(db, rank, old(State()), State(), RankOf(rank, key) + 1)
      ensures Keeps(db, old(State()), State(), iset{}) && SameWishes(db, old(State()), State())
      ensures forall k :: k in db.decls && key in DependsKeys(db, k) && Good(db, old(State()), Picked(k)) ==>
                Good(db, State(), Asked(k))
      ensures forall k :: Free(db, k) && key in DependsKeys(db, k) ==> Good(db, State(), Defaulted(k))
      ensures forall k, g :: k in db.decls && DeclOf(db, k).group == Some(g) && key in DependsKeys(db, k) ==>
                Good(db, old(State()), Recorded(g)) ==> Good(db, State(), Chosen(g))
      decreases top - RankOf(rank, key), 1
    {
      hide *;
      ghost var a := State();
      ghost var n := RankOf(rank, key) + 1;
      ReadyIs();
      DependsAre(key);
      KeepsSelf(db, a, iset{});
      WishesSelf(db, a);
      SameSelf(db, rank, a, n);
      var list := ListAt(rdepends, key);
      var i := 0;
      while i < |list|
        invariant 0 <= i <= |list| && Ready()
        invariant Same(db, rank, a, State(), n)
        invariant Keeps(db, a, State(), iset{}) && SameWishes(db, a, State())
        invariant forall k :: k in list[..i] && Good(db, a, Picked(k)) ==> Good(db, State(), Asked(k))
        invariant forall k :: k in list[..i] ==> Good(db, State(), Defaulted(k))
        invariant forall k, g :: k in list[..i] && DeclOf(db, k).group == Some(g) && Good(db, a, Recorded(g)) ==>
                  Good(db, State(), Chosen(g))
      {
        ghost var b := State();
        ExclusiveKept(db, rank, a, b, n);
        ExclusiveUp(db, rank, b, n, RankOf(rank, list[i]));
        UpdateDependent(list[i]);
        KeepsOn(db, a, b, State(), iset{});
        WishesOn(db, a, b, State());
        SameUpTo(db, rank, b, State(), RankOf(rank, list[i]), n);
        SameOn(db, rank, a, b, State(), n);
        forall k | k in list[..i + 1]
          ensures Good(db, a, Picked(k)) ==> Good(db, State(), Asked(k))
          ensures Good(db, State(), Defaulted(k))
        {
          if k in list[..i] {
            KeepsOne(db, b, State(), Defaulted(k));
            if Good(db, a, Picked(k)) {
              KeepsOne(db, b, State(), Asked(k));
            }
          } else if Good(db, a, Picked(k)) {
            KeepsOne(db, a, b, Picked(k));
          }
        }
        forall k, g | k in list[..i + 1] && DeclOf(db, k).group == Some(g) && Good(db, a, Recorded(g))
          ensures Good(db, State(), Chosen(g))
        {
          KeepsOne(db, a, b, Recorded(g));
          if k in list[..i] {
            KeepsOne(db, b, State(), Chosen(g));
          }
        }
        i := i + 1;
      }
    }

    method UpdateDependent(k: Key)
      requires Ready() && k in db.decls && Exclusives(db, rank, State(), RankOf(rank, k))
      modifies `opts, `choices
      ensures Ready()
      ensures Same(db, rank, old(State()), State(), RankOf(rank, k))
      ensures Keeps(db, old(State()), State(), iset{}) && SameWishes(db, old(State()), State())
      ensures (Good(db, old(State()), Picked(k)) ==> Good(db, State(), Asked(k))) && Good(db, State(), Defaulted(k))
      ensures forall g :: DeclOf(db, k).group == Some(g) && Good(db, old(State()), Recorded(g)) ==>
                Good(db, State(), Chosen(g))
      decreases top - RankOf(rank, k), 11
    {
      hide *;
      ghost var a := State();
      ghost var n := RankOf(rank, k);
      ReadyIs();
      ExclusiveAt(db, rank, a, k);
      TypedAsked(db, a, k);
      KeepsSelf(db, a, iset{});
      WishesSelf(db, a);
      SameSelf(db, rank, a, n);
      FreeIs(db, k);
      BoolsAre();
      if On(State(), k) && !CanEnable(db, State(), k) {
        PhaseIsSmall(db, a, k, B(false));
        SetConfig(k, B(false), false);
        ToldQuietly(db, a, k, B(false));
        WishesOn(db, a, Told(db, a, k, B(false), false), State());
        OffDone(db, rank, a, State(), k);
      } else if !OptOf(State(), k).userSet {
        UpdateDefaults(k);
        if Good(db, a, Picked(k)) {
          UnsetAsked(db, a, k);
          KeepsOne(db, a, State(), Asked(k));
        }
      } else if DeclOf(db, k).group.Some? {
        GroupIsKnown(db, k);
        UpdateChoiceDefault(DeclOf(db, k).group.value, k);
        ChooseBelow(db, rank, a, State(), k);
        OwnIsVoid(db, State(), k);
      } else if OptOf(State(), k).requested.Some? && ValueOf(State(), k) != OptOf(State(), k).requested.value {
        PhaseIsSmall(db, a, k, OptOf(a, k).requested.value);
        SetConfig(k, OptOf(State(), k).requested.value, true);
        ToldAgain(db, a, k);
        WishesOn(db, a, Told(db, a, k, OptOf(a, k).requested.value, true), State());
        AskedDone(db, rank, a, State(), k);
      } else {
        AskedAlready(db, a, k);
      }
    }

    lemma DependsAre(key: Key)
      requires Ready()
      ensures forall k :: k in ListAt(rdepends, key) ==> k in db.decls && RankOf(rank, key) < RankOf(rank, k)
      ensures forall k :: k in db.decls && key in DependsKeys(db, k) ==> k in ListAt(rdepends, key)
      ensures forall k :: Free(db, k) ==> k in db.decls
    {
      hide Sound, Ranked, Shape, DependsIndexed, DefaultIndexed, SelectIfIndexed, RankOf, ListAt, DependsKeys;
      ListedAbove(db, rank, rdepends, key);
      forall k | k in db.decls && key in DependsKeys(db, k)
        ensures k in ListAt(rdepends, key)
      {
        DependsListed(db, rank, rdepends, key, k);
      }
    }

    lemma DefaultsAre(key: Key)
      requires Ready()
      ensures forall k :: k in ListAt(rdefault, key) ==> k in db.decls && RankOf(rank, key) < RankOf(rank, k)
      ensures forall k :: Free(db, k) && key in DefaultKeys(db, k) ==> k in ListAt(rdefault, key)
    {
      hide Sound, Ranked, Shape, DependsIndexed, DefaultIndexed, SelectIfIndexed, RankOf, ListAt, DefaultKeys;
      ListedAbove(db, rank, rdefault, key);
      forall k | Free(db, k) && key in DefaultKeys(db, k)
        ensures k in ListAt(rdefault, key)
      {
        DefaultListed(db, rank, rdefault, key, k);
      }
    }

    lemma SelectIfsAre(key: Key)
      requires Ready()
      ensures forall s :: s in ListAt(rselectIf, key) ==> s in db.decls
      ensures forall s, k :: s in ListAt(rselectIf, key) && s in db.decls && k in IfTargets(db.decls[s]) ==>
                k in db.decls ==> RankOf(rank, key) < RankOf(rank, k)
      ensures forall s :: s in db.decls && key in IfKeys(db.decls[s]) ==> s in ListAt(rselectIf, key)
    {
      hide Sound, Ranked, Shape, DependsIndexed, DefaultIndexed, SelectIfIndexed, RankOf, ListAt, IfKeys, IfTargets;
      SelectIfAbove(db, rank, rselectIf, key);
    }

    /** Options whose default names key get their default again. */
    method UpdateDefaulted(key: Key)
      requires Ready() && key in db.decls && Exclusives(db, rank, State(), RankOf(rank, key) + 1)
      modifies `opts, `choices
      ensures Ready()
      ensures Same(db, rank, old(State()), State(), RankOf(rank, key) + 1)
      ensures Keeps(db, old(State()), State(), iset{}) && SameWishes(db, old(State()), State())
      ensures forall k :: Free(db, k) && key in DefaultKeys(db, k) ==> Good(db, State(), Defaulted(k))
      decreases top - RankOf(rank, key), 1
    {
      hide *;
      ghost var a := State();
      ghost var n := RankOf(rank, key) + 1;
      ReadyIs();
      DefaultsAre(key);
      KeepsSelf(db, a, iset{});
      WishesSelf(db, a);
      SameSelf(db, rank, a, n);
      var list := ListAt(rdefault, key);
      var i := 0;
      while i < |list|
        invariant 0 <= i <= |list| && Ready()
        invariant Same(db, rank, a, State(), n)
        invariant Keeps(db, a, State(), iset{}) && SameWishes(db, a, State())
        invariant forall k :: k in list[..i] ==> Good(db, State(), Defaulted(k))
      {
        ghost var b := State();
        ExclusiveKept(db, rank, a, b, n);
        ExclusiveUp(db, rank, b, n, RankOf(rank, list[i]));
        UpdateDefaults(list[i]);
        KeepsOn(db, a, b, State(), iset{});
        WishesOn(db, a, b, State());
        SameUpTo(db, rank, b, State(), RankOf(rank, list[i]), n);
        SameOn(db, rank, a, b, State(), n);
        forall k | k in list[..i + 1]
          ensures Good(db, State(), Defaulted(k))
        {
          if k in list[..i] {
            KeepsOne(db, b, State(), Defaulted(k));
          }
        }
        i := i + 1;
      }
    }

    /** Options with a conditional select whose condition names key force it again. */
    method UpdateSelectIfs(key: Key)
      requires Ready() && key in db.decls && Exclusives(db, rank, State(), RankOf(rank, key) + 1)
      modifies `opts, `choices
      ensures Ready()
      ensures Same(db, rank, old(State()), State(), RankOf(rank, key) + 1)
      ensures Keeps(db, old(State()), State(), iset{}) && SameWishes(db, old(State()), State())
      ensures forall s, k :: s in db.decls && key in IfKeys(db.decls[s]) && k in IfTargets(db.decls[s]) ==>
                Good(db, State(), Linked(s, k))
      decreases top - RankOf(rank, key), 1
    {
      hide *;
      ghost var a := State();
      ghost var n := RankOf(rank, key) + 1;
      ReadyIs();
      SelectIfsAre(key);
      KeepsSelf(db, a, iset{});
      WishesSelf(db, a);
      SameSelf(db, rank, a, n);
      var list := ListAt(rselectIf, key);
      var i := 0;
      while i < |list|
        invariant 0 <= i <= |list| && Ready()
        invariant Same(db, rank, a, State(), n)
        invariant Keeps(db, a, State(), iset{}) && SameWishes(db, a, State())
        invariant forall s, k :: s in list[..i] && s in db.decls && k in IfTargets(db.decls[s]) ==>
                  Good(db, State(), Linked(s, k))
      {
        ghost var b := State();
        ExclusiveKept(db, rank, a, b, n);
        SetSelectIfs(list[i], RankOf(rank, key));
        KeepsOn(db, a, b, State(), iset{});
        WishesOn(db, a, b, State());
        SameOn(db, rank, a, b, State(), n);
        forall s, k | s in list[..i + 1] && s in db.decls && k in IfTargets(db.decls[s])
          ensures Good(db, State(), Linked(s, k))
        {
          if s in list[..i] {
            KeepsOne(db, b, State(), Linked(s, k));
          }
        }
        i := i + 1;
      }
    }

    /** Brings all that depends on key up to date. */
    method Propagate(key: Key, value: Value)
      requires Ready() && key in db.decls && Exclusives(db, rank, State(), RankOf(rank, key) + 1)
      requires Free(db, key) ==> ValueOf(State(), key) == value
      modifies `opts, `choices
      ensures Ready()
      ensures Same(db, rank, old(State()), State(), RankOf(rank, key) + 1)
      ensures Keeps(db, old(State()), State(), iset{}) && SameWishes(db, old(State()), State())
      ensures Repairs(db, old(State()), State(), key)
      decreases top - RankOf(rank, key), 2
    {
      hide *;
      ghost var a := State();
      ghost var n := RankOf(rank, key) + 1;
      ReadyIs();
      RanksOfIf(db, rank, key);
      ForceSelected(key, value);
      ghost var b := State();
      ExclusiveLinked(db, rank, a, b, key, n);
      SetSelectIfs(key, n - 1);
      ghost var c := State();
      EmptyIn(IfLinks(db, key));
      KeepsIn(db, b, c, iset{}, IfLinks(db, key));
      KeepsOn(db, a, b, c, IfLinks(db, key));
      WishesOn(db, a, b, c);
      LinksMended(db, a, c, key);
      SameOn(db, rank, a, b, c, n);
      TargetsAre(key);
      forall k | k in Targets(db.decls[key])
        ensures Good(db, c, Linked(key, k))
      {
        if k !in IfTargets(db.decls[key]) {
          KeepsOne(db, b, c, Linked(key, k));
        }
      }
      LinkedAll(db, c, key);
      ExclusiveKept(db, rank, b, c, n);
      UpdateDependents(key);
      ghost var d := State();
      KeepsOn(db, a, c, d, iset{});
      WishesOn(db, a, c, d);
      SameOn(db, rank, a, c, d, n);
      ExclusiveKept(db, rank, c, d, n);
      UpdateDefaulted(key);
      ghost var e := State();
      KeepsOn(db, a, d, e, iset{});
      WishesOn(db, a, d, e);
      KeepsOn(db, c, d, e, iset{});
      SameOn(db, rank, a, d, e, n);
      ExclusiveKept(db, rank, d, e, n);
      UpdateSelectIfs(key);
      ghost var f := State();
      KeepsOn(db, a, e, f, iset{});
      WishesOn(db, a, e, f);
      KeepsOn(db, c, e, f, iset{});
      KeepsOn(db, d, e, f, iset{});
      SameOn(db, rank, a, e, f, n);
      StillRepaired(a, c, d, e, f, key);
    }

    lemma TargetsAre(key: Key)
      requires key in db.decls
      ensures forall k :: k in Targets(db.decls[key]) ==> k in db.decls[key].select || k in IfTargets(db.decls[key])
    {
    }

    lemma StillRepaired(a: State, c: State, d: State, e: State, f: State, key: Key)
      requires Sound(db) && Keeps(db, a, c, iset{})
      requires Keeps(db, c, f, iset{}) && Keeps(db, d, f, iset{}) && Keeps(db, e, f, iset{})
      requires forall k :: Good(db, c, Linked(key, k))
      requires forall k :: k in db.decls && key in DependsKeys(db, k) && Good(db, c, Picked(k)) ==>
                Good(db, d, Asked(k))
      requires forall k :: Free(db, k) && key in DependsKeys(db, k) ==> Good(db, d, Defaulted(k))
      requires forall k, g :: k in db.decls && DeclOf(db, k).group == Some(g) && key in DependsKeys(db, k) ==>
                 Good(db, c, Recorded(g)) ==> Good(db, d, Chosen(g))
      requires forall k :: Free(db, k) && key in DefaultKeys(db, k) ==> Good(db, e, Defaulted(k))
      requires forall s, k :: s in db.decls && key in IfKeys(db.decls[s]) && k in IfTargets(db.decls[s]) ==>
                Good(db, f, Linked(s, k))
      ensures Repairs(db, a, f, key)
    {
      hide Good, Dirty, IfTargets, IfKeys, DependsKeys, DefaultKeys, Free, Sound;
      AllRepaired(db, a, f, key);
    }

    /*** The interface ***/

    constructor (db: Db, ghost rank: Ranks, ghost top: nat)
      requires Sound(db) && Ranked(db, rank) && forall k :: k in db.decls ==> RankOf(rank, k) < top
      ensures this.db == db && this.rank == rank && this.top == top && Layered()
      ensures choices == map g | g in db.members :: NO_CHOICE
    {
      this.db, this.rank, this.top := db, rank, top;
      opts := map[];
      choices := map g | g in db.members :: NO_CHOICE;
      rdepends, rdefault, rselectIf := map[], map[], map[];
    }

    /** Between settings every choice is exclusive. */
    ghost predicate Settled()
      reads this
    {
      Ready() && Exclusives(db, rank, State(), 0)
    }

    lemma SettledIs()
      ensures Settled() <==> Ready() && Exclusives(db, rank, State(), 0)
    {
      hide Exclusives, ConfigSystem.Ready;
    }

    /** Starts all options off from their defaults, when no choice has a selection yet. */
    method SetInitialValues()
      requires Layered() && choices == map g | g in db.members :: NO_CHOICE
      modifies this
      ensures Settled() && (forall f: Fact :: Good(db, State(), f)) && Unasked(db, State())
    {
      hide *;
      LayeredIs();
      OrderIs(db);
      ChoicesAre(db, choices);
      ZeroAll();
      rdepends, rdefault, rselectIf := BuildIndices(db);
      BlankIsGood(db, State());
      BlankIsUnasked(db, State());
      ghost var blank := State();
      ReadyNow();
      DefaultAll();
      StillUnasked(db, blank, State());
      AllExclusive(db, rank, State());
      SettledIs();
    }

    method DefaultAll()
      requires Ready() && forall f: Fact :: !f.Defaulted? && !f.Chosen? ==> Good(db, State(), f)
      modifies `opts, `choices
      ensures Ready() && (forall f: Fact :: Good(db, State(), f)) && SameWishes(db, old(State()), State())
    {
      hide *;
      ReadyIsLayered();
      LayeredIs();
      OrderIs(db);
      ghost var a := State();
      KeepsSelf(db, a, iset{});
      WishesSelf(db, a);
      var n := 0;
      while n < |db.order|
        invariant 0 <= n <= |db.order| && Ready()
        invariant Keeps(db, a, State(), iset{}) && SameWishes(db, a, State())
        invariant forall k :: k in db.order[..n] ==> Started(db, State(), k)
      {
        ghost var b := State();
        RecordedAll(db, a, b);
        ExclusiveAll(db, rank, b, RankOf(rank, db.order[n]));
        UpdateDefaults(db.order[n]);
        NowStarted(db, b, State(), db.order[n]);
        KeepsOn(db, a, b, State(), iset{});
        WishesOn(db, a, b, State());
        forall k | k in db.order[..n]
          ensures Started(db, State(), k)
        {
          StaysStarted(db, b, State(), k);
        }
        n := n + 1;
      }
      assert db.order[..n] == db.order;
      DefaultsKnown(db, a, State(), db.order);
    }

    lemma ReadyIsLayered()
      requires Ready()
      ensures Layered()
    {
    }

    lemma OrderIs(db: Db)
      requires Sound(db)
      ensures forall k :: k in db.order <==> k in db.decls
    {
    }

    lemma ReadyNow()
      requires Layered() && Shape(db, State())
      requires DependsIndexed(db, rdepends) && DefaultIndexed(db, rdefault) && SelectIfIndexed(db, rselectIf)
      ensures Ready()
    {
    }

    method ZeroAll()
      requires choices.Keys == db.members.Keys && forall g :: g in choices ==> choices[g] == NO_CHOICE
      requires forall k :: k in db.order <==> k in db.decls
      modifies `opts
      ensures Blank(db, State())
    {
      opts := map[];
      var n := 0;
      while n < |db.order|
        invariant 0 <= n <= |db.order|
        invariant forall k :: k in opts <==> k in db.order[..n]
        invariant forall k :: k in opts ==> opts[k] == Opt(Zero(DeclOf(db, k).datatype_), {}, false, None)
      {
        var k := db.order[n];
        opts := opts[k := Opt(Zero(db.decls[k].datatype_), {}, false, None)];
        n := n + 1;
      }
      assert db.order[..n] == db.order;
    }

    /** Takes one setting. Unknown options and options without a prompt are passed over; a
        text that is no number fails for an option that is one. */
    method Set(x: Setting) returns (ok: bool)
      requires Settled()
      modifies `opts, `choices
      ensures Settled()
      ensures ok <==> Converts(db, x)
      ensures if ok then Taken(db, rank, old(State()), State(), x) else State() == old(State())
    {
      hide *;
      ghost var a := State();
      KeepsSelf(db, a, Loosened(db, x));
      SettledIs();
      SettableIs(x.key);
      SettingIs(x);
      if !Settable(db, x.key) {
        ReadyIs();
        PassedOver(a, x);
        return true;
      }
      var v := ToValue(DeclOf(db, x.key).datatype_, x.text);
      if v.None? {
        return false;
      }
      ReadyIs();
      ExclusiveUp(db, rank, a, 0, RankOf(rank, x.key));
      ExclusiveAt(db, rank, a, x.key);
      SetConfig(x.key, v.value, x.user);
      SettingKeeps(db, rank, a, State(), x, v.value);
      ExclusiveLoosened(db, rank, a, State(), x);
      SettledIs();
      ToldIs(db, a, x.key, v.value, x.user);
      ReadyIs();
      ItIsTaken(a, State(), x, v.value);
      return true;
    }

    lemma SettingIs(x: Setting)
      ensures ValueFor(db, x) == ToValue(DeclOf(db, x.key).datatype_, x.text)
      ensures Converts(db, x) <==> (Settable(db, x.key) ==> ValueFor(db, x).Some?)
    {
      hide ToValue;
    }

    lemma PassedOver(a: State, x: Setting)
      requires Shape(db, a) && !Settable(db, x.key) && Keeps(db, a, a, Loosened(db, x))
      ensures Taken(db, rank, a, a, x)
    {
      hide Shape, Keeps;
    }

    lemma ItIsTaken(a: State, b: State, x: Setting, v: Value)
      requires Shape(db, b) && Settable(db, x.key) && ValueFor(db, x) == Some(v) && Keeps(db, a, b, Loosened(db, x))
      requires Same(db, rank, SetOwn(db, a, x.key, v, x.user), b, RankOf(rank, x.key) + 1)
      requires Same(db, rank, a, b, RankOf(rank, x.key))
      requires SameWishes(db, Flagged(db, a, x.key, v, x.user), b)
      requires x.user ==> Good(db, b, Defaulted(x.key))
      requires x.user && (Free(db, x.key) || (v == B(true) && Good(db, a, Picked(x.key)))) ==> Good(db, b, Asked(x.key))
      ensures Taken(db, rank, a, b, x)
    {
      hide Shape, Keeps, Same, SameWishes, SetOwn, Flagged, Good;
    }

    lemma SettableIs(k: Key)
      ensures Settable(db, k) ==> k in db.decls
    {
    }

    /** Takes the settings one after the other, up to the first that fails. The trace has the
        states between them. */
    method Run(xs: seq<Setting>) returns (ok: bool, ghost tr: seq<State>)
      requires Settled()
      modifies `opts, `choices
      ensures Settled() && 0 < |tr| <= |xs| + 1 && tr[0] == old(State()) && tr[|tr| - 1] == State()
      ensures Trace(db, rank, tr, xs[..|tr| - 1])
      ensures ok <==> forall x :: x in xs ==> Converts(db, x)
      ensures if ok then |tr| == |xs| + 1 else |tr| <= |xs| && !Converts(db, xs[|tr| - 1])
      ensures Keeps(db, old(State()), State(), AllLoosened(db, xs))
    {
      hide *;
      ghost var a := State();
      KeepsSelf(db, a, AllLoosened(db, xs));
      TraceStart(db, rank, a);
      tr := [a];
      assert xs[..0] == [];
      var i := 0;
      while i < |xs|
        invariant 0 <= i <= |xs| && Settled()
        invariant |tr| == i + 1 && tr[0] == a && tr[i] == State() && Trace(db, rank, tr, xs[..i])
        invariant forall x :: x in xs[..i] ==> Converts(db, x)
        invariant Keeps(db, a, State(), AllLoosened(db, xs))
      {
        ghost var b := State();
        ok := Set(xs[i]);
        if !ok {
          return;
        }
        TakenKeeps(b, State(), xs[i]);
        LoosenedIn(db, xs, xs[i]);
        KeepsIn(db, b, State(), Loosened(db, xs[i]), AllLoosened(db, xs));
        KeepsOn(db, a, b, State(), AllLoosened(db, xs));
        TraceMore(db, rank, tr, xs[..i], State(), xs[i]);
        tr := tr + [State()];
        assert xs[..i + 1] == xs[..i] + [xs[i]];
        i := i + 1;
      }
      assert xs[..|xs|] == xs;
      return true, tr;
    }

    lemma TakenKeeps(a: State, b: State, x: Setting)
      requires Taken(db, rank, a, b, x)
      ensures Keeps(db, a, b, Loosened(db, x))
    {
      hide Keeps;
    }
  }

  /** A fresh configuration after any settings: every choice has at most one member on,
      selected options are on, what the user asked for is on record and met, and every other
      fact holds that no setting has loosened. */
  method Configure(db: Db, ghost rank: Ranks, ghost top: nat, xs: seq<Setting>)
    returns (c: ConfigSystem, ok: bool, ghost n: nat)
    requires Sound(db) && Ranked(db, rank) && forall k :: k in db.decls ==> RankOf(rank, k) < top
    ensures c.db == db && c.Settled()
    ensures ok <==> forall x :: x in xs ==> Converts(db, x)
    ensures if ok then n == |xs| else n < |xs| && !Converts(db, xs[n])
    ensures OnRecord(db, c.State(), xs[..n]) && LastAreMet(db, c.State(), xs[..n])
    ensures forall g :: AtMostOneOn(db, c.State(), g)
    ensures forall f: Fact :: f !in AllLoosened(db, xs) ==> Good(db, c.State(), f)
  {
    hide *;
    c := new ConfigSystem(db, rank, top);
    c.SetInitialValues();
    ghost var a := c.State();
    ghost var tr;
    ok, tr := c.Run(xs);
    n := |tr| - 1;
    AllStayGood(db, a, c.State(), xs);
    AllOnRecord(db, rank, tr, xs[..n]);
    AllAreMet(db, rank, tr, xs[..n]);
  }

  lemma ChoicesAre(db: Db, choices: map<Group, Choice>)
    requires choices == map g | g in db.members :: NO_CHOICE
    ensures choices.Keys == db.members.Keys && forall g :: g in choices ==> choices[g] == NO_CHOICE
  {
  }

  lemma AllStayGood(db: Db, a: State, b: State, xs: seq<Setting>)
    requires (forall f: Fact :: Good(db, a, f)) && Keeps(db, a, b, AllLoosened(db, xs))
    ensures forall f: Fact :: f !in AllLoosened(db, xs) ==> Good(db, b, f)
    ensures forall g :: AtMostOneOn(db, b, g)
  {
    hide Meets, DefaultOf, OptOf, Links, Picks, AtMostOneOn, Free, Steady, Full, SomeOn;
    forall g
      ensures AtMostOneOn(db, b, g)
    {
      assert Exclusive(g) !in AllLoosened(db, xs);
      assert Good(db, b, Exclusive(g));
    }
  }
}
