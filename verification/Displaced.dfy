/** An option that is turned on and gives way to a selected member of its choice is turned
    off without a word to what looks at it: an example. */
module Displaced {
  import opened Wrappers
  import opened Options
  import opened Choices
  import opened Consistency
  import opened Effects
  import opened Propagation

  const SWITCH := Decl(BoolType, true, None, [], None, [], [], None, 0)
  const MEMBER := SWITCH.(group := Some(0))
  const SELECTOR := SWITCH.(select := ["B"])
  const READER := Decl(StringType, false, None, [(A_NOT_C, Literal(S("a")))], None, [], [], None, 0)
  const A_NOT_C := And(Term(Ident("A")), Not(Term(Ident("C"))))

  /** S selects B, which is in a choice with A and C; D is "a" by default if A && !C. */
  const DB := Db(map["S" := SELECTOR, "A" := MEMBER, "C" := MEMBER, "B" := MEMBER, "D" := READER],
                 map[0 := ["A", "C", "B"]], ["S", "A", "C", "B", "D"])

  const RANK: Ranks := map["S" := 0, "A" := 1, "C" := 1, "B" := 1, "D" := 2]

  /** S and B are on. */
  const BEFORE := State(
    map["S" := Opt(B(true), {}, true, Some(B(true))),
        "A" := Opt(B(false), {}, false, None), "C" := Opt(B(false), {}, false, None),
        "B" := Opt(B(true), {"S"}, false, None), "D" := Opt(S(""), {}, false, None)],
    map[0 := Choice(Some("B"), None)])

  lemma NamesDiffer()
    ensures "S" != "A" && "S" != "B" && "S" != "C" && "S" != "D" && "A" != "B" && "A" != "C" && "A" != "D"
    ensures "B" != "C" && "B" != "D" && "C" != "D"
  {
    assert "S"[0] != "A"[0] && "S"[0] != "B"[0] && "S"[0] != "C"[0] && "S"[0] != "D"[0];
    assert "A"[0] != "B"[0] && "A"[0] != "C"[0] && "A"[0] != "D"[0];
    assert "B"[0] != "C"[0] && "B"[0] != "D"[0] && "C"[0] != "D"[0];
  }

  lemma Known(k: Key)
    ensures k in DB.decls <==> k == "S" || k == "A" || k == "C" || k == "B" || k == "D"
    ensures DeclOf(DB, "S") == SELECTOR && DeclOf(DB, "D") == READER
    ensures DeclOf(DB, "A") == DeclOf(DB, "B") == DeclOf(DB, "C") == MEMBER
    ensures MembersOf(DB, 0) == ["A", "C", "B"] && forall g :: g != 0 ==> MembersOf(DB, g) == []
  {
    NamesDiffer();
  }

  lemma DeclsAreSound(k: Key)
    requires k in DB.decls
    ensures SoundDecl(DB, DB.decls[k])
  {
    hide *;
    NamesDiffer();
    Known(k);
    Known("B");
    DeclIs(k);
    DeclIs("B");
    Looks();
    FieldsOf();
    TypesOf();
    SoundFromParts(DB, DB.decls[k]);
  }

  lemma TypesOf()
    ensures SELECTOR.datatype_ == MEMBER.datatype_ == BoolType && READER.datatype_ == StringType && READER.group == None
    ensures READER.defaultCond == [(A_NOT_C, Literal(S("a")))] && ExprType(DB, Literal(S("a"))) == Some(StringType)
  {
  }

  lemma SoundFromParts(db: Db, d: Decl)
    requires d.default == None && d.selectIf == []
    requires d.defaultCond == [] || (|d.defaultCond| == 1 && ExprType(db, d.defaultCond[0].1) == Some(d.datatype_))
    requires d.select != [] || d.group.Some? ==> d.datatype_ == BoolType
    requires forall t :: t in Targets(d) && t in db.decls ==> db.decls[t].datatype_ == BoolType
    ensures SoundDecl(db, d)
  {
    hide ExprType, Targets;
  }

  lemma NoneRepeat()
    ensures NoDup(["A", "C", "B"]) && NoDup(["S", "A", "C", "B", "D"]) && NoDup([])
  {
    NamesDiffer();
  }

  lemma GroupsAreRight(k: Key, g: Group)
    ensures k in DB.decls <==> k in DB.order
    ensures k in DB.decls ==> DB.decls[k] == DeclOf(DB, k)
    ensures k in MembersOf(DB, g) <==> k in DB.decls && DeclOf(DB, k).group == Some(g)
    ensures NoDup(MembersOf(DB, g)) && NoDup(DB.order)
  {
    NamesDiffer();
    NoneRepeat();
    Known(k);
    hide NoDup;
  }

  lemma SoundFrom(db: Db)
    requires forall k :: k in db.decls ==> SoundDecl(db, db.decls[k]) && db.decls[k] == DeclOf(db, k)
    requires forall k, g :: k in MembersOf(db, g) <==> k in db.decls && DeclOf(db, k).group == Some(g)
    requires forall g :: NoDup(MembersOf(db, g))
    requires NoDup(db.order) && forall k :: k in db.order <==> k in db.decls
    ensures Sound(db)
  {
    hide SoundDecl, NoDup, MembersOf;
  }

  lemma RanksDiffer(a: Key, b: Key)
    requires a in DB.decls && b in DB.decls
    ensures RankOf(RANK, a) == RankOf(RANK, b) <==> a == b || SameGroup(DB, a, b)
  {
    NamesDiffer();
    Known(a);
    Known(b);
  }

  lemma RanksRise(k: Key)
    ensures "S" in DB.decls && "A" in DB.decls && "C" in DB.decls && "B" in DB.decls && "D" in DB.decls
    ensures RankOf(RANK, "S") < RankOf(RANK, "B") && RankOf(RANK, "A") < RankOf(RANK, "D") &&
            RankOf(RANK, "C") < RankOf(RANK, "D")
    ensures RANK.Keys == DB.decls.Keys
    ensures k in DB.decls ==> k == "S" || k == "A" || k == "C" || k == "B" || k == "D"
  {
    NamesDiffer();
    Known(k);
  }

  /** The database is one that every result is about. */
  lemma IsAllowed()
    ensures Sound(DB) && Ranked(DB, RANK)
  {
    hide *;
    forall k
      ensures k in DB.decls <==> k in DB.order
      ensures k in DB.decls ==> SoundDecl(DB, DB.decls[k]) && DB.decls[k] == DeclOf(DB, k)
    {
      GroupsAreRight(k, 0);
      if k in DB.decls {
        DeclsAreSound(k);
      }
    }
    forall k, g
      ensures k in MembersOf(DB, g) <==> k in DB.decls && DeclOf(DB, k).group == Some(g)
    {
      GroupsAreRight(k, g);
    }
    forall g
      ensures NoDup(MembersOf(DB, g)) && NoDup(DB.order)
    {
      GroupsAreRight("A", g);
    }
    assert NoDup(MembersOf(DB, 0));
    SoundFrom(DB);
    RanksAreRight();
  }

  lemma RankedFrom(db: Db, rank: Ranks)
    requires rank.Keys == db.decls.Keys
    requires forall a, b :: a in db.decls && b in db.decls ==>
              (RankOf(rank, a) == RankOf(rank, b) <==> a == b || SameGroup(db, a, b))
    requires forall k, i :: k in db.decls && i in DependsKeys(db, k) + DefaultKeys(db, k) ==>
              i in db.decls && RankOf(rank, i) < RankOf(rank, k)
    requires forall s, k :: s in db.decls && k in Targets(db.decls[s]) && k in db.decls ==>
              RankOf(rank, s) < RankOf(rank, k)
    requires forall s :: s in db.decls ==> IfKeys(db.decls[s]) == {}
    ensures Ranked(db, rank)
  {
    hide DependsKeys, DefaultKeys, IfKeys, IfTargets, Targets, SameGroup, RankOf;
  }

  lemma RanksAreRight()
    ensures Ranked(DB, RANK)
  {
    hide *;
    NamesDiffer();
    Looks();
    forall k
      ensures k in DB.decls ==> k == "S" || k == "A" || k == "C" || k == "B" || k == "D"
    {
      RanksRise(k);
    }
    RanksRise("A");
    forall a, b | a in DB.decls && b in DB.decls
      ensures RankOf(RANK, a) == RankOf(RANK, b) <==> a == b || SameGroup(DB, a, b)
    {
      RanksDiffer(a, b);
    }
    RankedFrom(DB, RANK);
  }

  lemma Looks()
    ensures forall k :: k in DB.decls ==> DependsKeys(DB, k) == {} && IfKeys(DB.decls[k]) == {}
    ensures forall k :: k in DB.decls ==> DefaultKeys(DB, k) == if k == "D" then {"A", "C"} else {}
    ensures forall k :: k in DB.decls ==> Targets(DB.decls[k]) == if k == "S" then {"B"} else {}
  {
    hide *;
    NamesDiffer();
    forall k | k in DB.decls
      ensures DependsKeys(DB, k) == {} && IfKeys(DB.decls[k]) == {}
      ensures DefaultKeys(DB, k) == if k == "D" then {"A", "C"} else {}
      ensures Targets(DB.decls[k]) == if k == "S" then {"B"} else {}
    {
      LooksAt(k);
    }
  }

  lemma LooksAt(k: Key)
    requires k in DB.decls
    ensures DependsKeys(DB, k) == {} && IfKeys(DB.decls[k]) == {}
    ensures DefaultKeys(DB, k) == if k == "D" then {"A", "C"} else {}
    ensures Targets(DB.decls[k]) == if k == "S" then {"B"} else {}
  {
    hide *;
    Known(k);
    DeclIs(k);
    FieldsOf();
    ReaderKeys();
    KeysByDecl(DB, k, DB.decls[k]);
  }

  lemma DeclIs(k: Key)
    requires k in DB.decls
    ensures DB.decls[k] == DeclOf(DB, k)
    ensures DB.decls[k] == if k == "S" then SELECTOR else if k == "D" then READER else MEMBER
  {
    NamesDiffer();
  }

  lemma FieldsOf()
    ensures SELECTOR.select == ["B"] && MEMBER.select == READER.select == []
    ensures SELECTOR.defaultCond == MEMBER.defaultCond == []
    ensures SELECTOR.depends == MEMBER.depends == READER.depends == None
    ensures SELECTOR.default == MEMBER.default == READER.default == None
    ensures SELECTOR.selectIf == MEMBER.selectIf == READER.selectIf == []
  {
  }

  /** What an option looks at that has neither dependencies nor conditional selects. */
  lemma KeysByDecl(db: Db, k: Key, d: Decl)
    requires DeclOf(db, k) == d && d.depends == None && d.default == None && d.selectIf == []
    ensures DependsKeys(db, k) == {} && IfKeys(d) == {} && DefaultKeys(db, k) == CasesKeys(d.defaultCond)
    ensures Targets(d) == set t | t in d.select
  {
    hide CasesKeys;
  }

  lemma ReaderKeys()
    ensures CasesKeys(READER.defaultCond) == {"A", "C"} && CasesKeys([]) == {}
  {
    assert READER.defaultCond[1..] == [];
  }

  /** The default of D in a state. */
  lemma ReaderDefault(st: State)
    requires ValueOf(st, "A").B? && ValueOf(st, "C").B?
    ensures DefaultOf(DB, st, "D") == S(if On(st, "A") && !On(st, "C") then "a" else "")
  {
    NamesDiffer();
    var a, c := ValueOf(st, "A").b, ValueOf(st, "C").b;
    assert ExprValue(st, Ident("A")) == Some(B(a)) && ExprValue(st, Ident("C")) == Some(B(c));
    assert CondValue(st, Term(Ident("C"))) == Some(B(c));
    assert CondValue(st, Term(Ident("A"))) == Some(B(a));
    assert CondValue(st, Not(Term(Ident("C")))) == Some(B(!c));
    assert CondValue(st, A_NOT_C) == Some(B(a && !c));
    FirstCase(st, A_NOT_C, Literal(S("a")));
  }

  lemma FirstCase(st: State, c: Cond, e: Expr)
    ensures DefaultFrom(st, [(c, e)], None, StringType) == if Holds(st, c) then ExprResult(st, e) else S("")
  {
    assert [(c, e)][1..] == [];
  }

  const TOLD := Flagged(DB, BEFORE, "A", B(true), true)
  const ON := Select(Put(TOLD, "A", B(true)), 0, Some("A"))
  const UNSET := UnsetOne(DB, ON, "C", true)

  lemma UnsetIs()
    ensures !Blocked(DB, TOLD, "A", B(true)) && On(UNSET, "A") && ValueOf(UNSET, "C") == B(false)
    ensures OptOf(UNSET, "D") == Opt(S(""), {}, false, None)
    ensures OptOf(UNSET, "B") == Opt(B(true), {"S"}, false, None)
  {
    hide *;
    NamesDiffer();
    Known("A");
    Known("C");
    BeforeIs();
    NoDependencies();
    TurnedOn(DB, BEFORE, "A", 0);
    ToldIs();
    TurnedOff(DB, ON, "C", true);
    UnsetUnfolds();
    OnIs("A", UNSET);
  }

  lemma ToldIs()
    ensures ON == Select(Put(TOLD, "A", B(true)), 0, Some("A")) && TOLD == Flagged(DB, BEFORE, "A", B(true), true)
  {
  }

  lemma UnsetUnfolds()
    ensures UNSET == UnsetOne(DB, ON, "C", true)
  {
  }

  lemma BeforeIs()
    ensures OptOf(BEFORE, "A") == OptOf(BEFORE, "C") == Opt(B(false), {}, false, None)
    ensures OptOf(BEFORE, "D") == Opt(S(""), {}, false, None) && OptOf(BEFORE, "B") == Opt(B(true), {"S"}, false, None)
  {
    NamesDiffer();
  }

  lemma NoDependencies()
    ensures MEMBER.depends == None && MEMBER.group == Some(0) && MEMBER.datatype_ == BoolType
  {
  }

  lemma OnIs(k: Key, st: State)
    ensures On(st, k) <==> OptOf(st, k).value == B(true)
    ensures forall x :: ValueOf(st, x) == OptOf(st, x).value
  {
  }

  /** A member without dependencies is turned on, up to the others' turn. */
  lemma TurnedOn(db: Db, st: State, k: Key, g: Group)
    requires DeclOf(db, k).depends == None && OptOf(st, k).selectedBy == {}
    ensures var s := Flagged(db, st, k, B(true), true);
            var p := Select(Put(s, k, B(true)), g, Some(k));
            && !Blocked(db, s, k, B(true)) && OptOf(p, k).value == B(true)
            && (forall x :: x != k ==> OptOf(p, x) == OptOf(st, x))
  {
  }

  lemma TurnedOff(db: Db, st: State, k: Key, user: bool)
    requires DeclOf(db, k).datatype_ == BoolType && OptOf(st, k).selectedBy == {}
    ensures var s := UnsetOne(db, st, k, user);
            OptOf(s, k).value == B(false) && forall x :: x != k ==> OptOf(s, x) == OptOf(st, x)
  {
  }

  /** The user turns A on. C is turned off, which gives D its new default; B stays on, so A
      goes off; and D is left with a default it no longer has. The states are those between
      the calls that set_config makes, and all but D ends up as the assignment says. */
  lemma StaleDefault()
    ensures Displaceable(DB, "A") && Meets(DB, BEFORE, "D", Some(DefaultOf(DB, BEFORE, "D")))
    ensures !Blocked(DB, TOLD, "A", B(true)) && !On(UNSET, "C") && UNSET == SetOwn(DB, ON, "C", B(false), true)
    ensures var own := SetOwn(DB, BEFORE, "A", B(true), true);
            var read := DefaultOwn(DB, UNSET, "D");
            var kept := SetOwn(DB, read, "B", B(false), true);
            var after := Put(kept, "A", B(false));
            && On(kept, "B") && ValueOf(after, "D") == S("a")
            && (forall x :: x != "D" ==> OptOf(after, x) == OptOf(own, x)) && after.choices == own.choices
            && OptOf(after, "D").selectedBy == {} && !OptOf(after, "D").userSet
            && !Meets(DB, after, "D", Some(DefaultOf(DB, after, "D")))
  {
    hide *;
    NamesDiffer();
    Known("B");
    BeforeIs();
    NoDependencies();
    SelectorSelects();
    UnsetIs();
    OnIs("A", BEFORE);
    OnIs("C", BEFORE);
    ReaderMeets(BEFORE);
    OnIs("C", UNSET);
    ReaderTold(UNSET);
    var read := DefaultOwn(DB, UNSET, "D");
    SelectedStays(DB, read, "B", true);
    SelectedStays(DB, UNSET, "B", true);
    OwnOfA();
    OwnOfB(read);
    var kept := UnsetOne(DB, read, "B", true);
    PutIs(kept, "A", B(false));
    PutIs(UnsetOne(DB, UNSET, "B", true), "A", B(false));
    var after := Put(kept, "A", B(false));
    OnIs("B", kept);
    OnIs("A", after);
    OnIs("C", read);
    ReaderMeets(after);
    Letters();
  }

  lemma OwnOfB(st: State)
    requires OptOf(st, "B").selectedBy != {}
    ensures SetOwn(DB, st, "B", B(false), true) == UnsetOne(DB, st, "B", true)
  {
    Known("B");
    hide OtherOn, ChooseDefault, SetOn;
  }

  /** What the assignment to A comes to on its level. */
  lemma OwnOfA()
    ensures SetOwn(DB, ON, "C", B(false), true) == UNSET
    ensures SetOwn(DB, BEFORE, "A", B(true), true) == Put(UnsetOne(DB, UNSET, "B", true), "A", B(false))
  {
    hide *;
    NamesDiffer();
    Known("A");
    Known("C");
    BeforeIs();
    NoDependencies();
    TurnedOn(DB, BEFORE, "A", 0);
    ToldIs();
    UnsetUnfolds();
    UnsetIs();
    IsAllowed();
    OnIs("A", ON);
    OffIsUnset(DB, ON, 0, "A", "C", true);
    BoolsAre();
    SetOwnCases(DB, BEFORE, "A", B(true), true, 0);
    SetOnIs(DB, BEFORE, 0, "A", true);
    var t := UnsetOne(DB, UNSET, "B", true);
    SelectedStays(DB, UNSET, "B", true);
    OnIs("B", t);
    OnIs("C", UNSET);
    OthersOfA(t);
  }

  lemma OthersOfA(t: State)
    requires UNSET == UnsetOne(DB, ON, "C", true) && !On(UNSET, "C") && t == UnsetOne(DB, UNSET, "B", true) &&
             On(t, "B")
    ensures UnsetOthers(DB, ON, "A", ["A", "C", "B"], true) == Put(t, "A", B(false))
  {
    hide *;
    NamesDiffer();
    UnsetOthersStepIs(DB, ON, "A", ["A", "C", "B"], 0, true);
    UnsetOthersStepIs(DB, ON, "A", ["A", "C", "B"], 1, true);
    UnsetOthersStepIs(DB, UNSET, "A", ["A", "C", "B"], 2, true);
    assert ["A", "C", "B"][0..] == ["A", "C", "B"];
  }

  /** The state before is as it should be, the option that the user set apart. */
  lemma BeforeIsGood()
    ensures Shape(DB, BEFORE) && forall f: Fact :: f != Unset("S") ==> Good(DB, BEFORE, f)
  {
    hide *;
    BeforeHasShape();
    forall f: Fact | f != Unset("S")
      ensures Good(DB, BEFORE, f)
    {
      match f
      case Exclusive(g) => BeforeChoices(g);
      case Recorded(g) => BeforeChoices(g);
      case Chosen(g) => BeforeChoices(g);
      case Picked(k) => BeforeOption(k);
      case Forced(k) => BeforeOption(k);
      case Asked(k) => BeforeOption(k);
      case Defaulted(k) => BeforeOption(k);
      case Unset(k) => BeforeOption(k);
      case Linked(s, k) => BeforeLinks(s, k);
    }
  }

  lemma BeforeHasShape()
    ensures Shape(DB, BEFORE)
  {
    NamesDiffer();
    BIsSelectable();
    assert "B" in Targets(SELECTOR) by {
      assert SELECTOR.select[0] == "B";
    }
    forall k
      ensures ShapeAt(DB, k, OptOf(BEFORE, k))
    {
      Known(k);
      hide Targets;
    }
    forall g
      ensures ShapeOfChoice(DB, BEFORE, g, ChoiceOf(BEFORE, g))
    {
      Known("A");
      assert ["A", "C", "B"][2] == "B";
      hide Targets;
    }
    hide Targets, ShapeAt, ShapeOfChoice;
  }

  lemma Ons(k: Key)
    ensures On(BEFORE, k) <==> k == "S" || k == "B"
  {
    NamesDiffer();
  }

  lemma BeforeChoices(g: Group)
    ensures Good(DB, BEFORE, Exclusive(g)) && Good(DB, BEFORE, Recorded(g)) && Good(DB, BEFORE, Chosen(g))
    ensures AtMostOneOn(DB, BEFORE, g) && ChoiceOf(BEFORE, 0) == Choice(Some("B"), None)
  {
    hide On, Steady, Enableable;
    NamesDiffer();
    Known("A");
    forall k
      ensures On(BEFORE, k) <==> k == "S" || k == "B"
    {
      Ons(k);
    }
    assert ["A", "C", "B"][2] in ["A", "C", "B"];
  }

  lemma BeforeOption(k: Key)
    ensures Good(DB, BEFORE, Picked(k)) && Good(DB, BEFORE, Forced(k)) && Good(DB, BEFORE, Asked(k))
    ensures Good(DB, BEFORE, Defaulted(k)) && (k != "S" ==> Good(DB, BEFORE, Unset(k)))
  {
    hide Rivalled, AtMostOneOn, OptOf, Meets, DefaultOf, CanEnable, Steady;
    NamesDiffer();
    BeforeChoices(0);
    Ons(k);
    BeforeIs();
    if k in DB.decls {
      Known(k);
      DeclIs(k);
      NoDependencies();
      OnIs("A", BEFORE);
      OnIs("C", BEFORE);
      OnIs("S", BEFORE);
      ReaderMeets(BEFORE);
      SelectorMeets();
      hide DB, BEFORE, READER, SELECTOR, MEMBER;
    }
  }

  lemma SelectorMeets()
    ensures OptOf(BEFORE, "S") == Opt(B(true), {}, true, Some(B(true)))
    ensures Meets(DB, BEFORE, "S", Some(B(true))) && READER.group == None && SELECTOR.group == None
  {
    NamesDiffer();
    hide CanEnable;
  }

  lemma BeforeLinks(s: Key, k: Key)
    ensures Good(DB, BEFORE, Linked(s, k))
  {
    hide Steady;
    NamesDiffer();
    if Links(DB, s, k) {
      LinksKnown(DB, s, k);
      Looks();
      DeclIs(s);
      FieldsOf();
      BeforeIs();
      Ons(s);
    }
  }

  lemma Letters()
    ensures S("a") != S("")
  {
  }

  lemma SelectorSelects()
    ensures Displaceable(DB, "A")
  {
    NamesDiffer();
    Known("A");
    BIsSelectable();
    assert MembersOf(DB, 0)[1] == "C" && MembersOf(DB, 0)[2] == "B";
    hide Selectable;
  }

  lemma BIsSelectable()
    ensures Selectable(DB, "B")
  {
    assert DB.decls["S"].select[0] == "B";
    assert "B" in Targets(DB.decls["S"]);
  }

  lemma ReaderMeets(st: State)
    requires OptOf(st, "A").value.B? && OptOf(st, "C").value.B?
    ensures Meets(DB, st, "D", Some(DefaultOf(DB, st, "D"))) <==>
            OptOf(st, "D").value == S(if OptOf(st, "A").value.b && !OptOf(st, "C").value.b then "a" else "")
  {
    hide DefaultOf;
    Known("D");
    ReaderDefault(st);
  }

  lemma ReaderTold(st: State)
    requires OptOf(st, "D") == Opt(S(""), {}, false, None) && On(st, "A") && ValueOf(st, "C") == B(false)
    ensures var s := DefaultOwn(DB, st, "D");
            && OptOf(s, "D") == Opt(S("a"), {}, false, None) && s.choices == st.choices
            && (forall x :: x != "D" ==> OptOf(s, x) == OptOf(st, x))
  {
    hide DefaultOf, ChooseDefault;
    Known("D");
    ReaderDefault(st);
  }

  lemma SelectedStays(db: Db, st: State, k: Key, user: bool)
    requires DeclOf(db, k).datatype_ == BoolType && DeclOf(db, k).group.Some? && OptOf(st, k).selectedBy != {}
    ensures var s := UnsetOne(db, st, k, user);
            && OptOf(s, k) == OptOf(st, k).(userSet := OptOf(st, k).userSet || user) && s.choices == st.choices
            && (forall x :: x != k ==> OptOf(s, x) == OptOf(st, x))
  {
  }

  lemma PutIs(st: State, k: Key, v: Value)
    ensures OptOf(Put(st, k, v), k) == OptOf(st, k).(value := v) && Put(st, k, v).choices == st.choices
    ensures forall x :: x != k ==> OptOf(Put(st, k, v), x) == OptOf(st, x)
  {
  }
}
