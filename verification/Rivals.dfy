/** Two options that each select a member of the same choice: a run after which a selected
    option is off. */
module Rivals {
  import opened Wrappers
  import opened Options
  import opened Choices
  import opened Levels
  import opened Consistency
  import opened Propagation
  import opened Settings
  import opened ConfigSystems
  import opened Displaced

  const OF_A := SWITCH.(select := ["A"])
  const OF_B := SWITCH.(select := ["B"])

  /** P selects A and Q selects B, which make up a choice. */
  const PAIR := Db(map["P" := OF_A, "Q" := OF_B, "A" := MEMBER, "B" := MEMBER], map[0 := ["A", "B"]],
                   ["P", "Q", "A", "B"])

  const LEVELS: Ranks := map["P" := 0, "Q" := 1, "A" := 2, "B" := 2]

  const YES_P := Setting("P", "y", true)
  const YES_Q := Setting("Q", "y", true)

  /** Turning both on leaves a selected member off. */
  method SelectBoth() returns (st: State)
    ensures "P" in OptOf(st, "A").selectedBy && "Q" in OptOf(st, "B").selectedBy
    ensures !On(st, "A") || !On(st, "B")
  {
    hide *;
    PairIsAllowed();
    Names();
    Texts();
    var c := new ConfigSystem(PAIR, LEVELS, 3);
    c.SetInitialValues();
    ghost var a := c.State();
    c.SettledIs();
    c.ReadyIs();
    var _ := c.Set(YES_P);
    ghost var b := c.State();
    WhatTaken(a, b, YES_P);
    GoesOn(a, b, "P");
    StaysGood(a, b, YES_P);
    c.SettledIs();
    c.ReadyIs();
    var _ := c.Set(YES_Q);
    st := c.State();
    WhatTaken(b, st, YES_Q);
    GoesOn(b, st, "Q");
    StaysGood(b, st, YES_Q);
    StillOn(b, st);
    BothSelected(st);
    OneOfTwoIsOff(PAIR, st, 0, "A", "B");
  }

  lemma Names()
    ensures "P" != "Q" && "P" != "A" && "P" != "B" && "Q" != "A" && "Q" != "B" && "A" != "B"
    ensures "P" in PAIR.decls && "Q" in PAIR.decls && "A" in PAIR.decls && "B" in PAIR.decls
    ensures MembersOf(PAIR, 0) == ["A", "B"] && "A" in MembersOf(PAIR, 0) && "B" in MembersOf(PAIR, 0)
  {
    assert "P"[0] != "Q"[0] && "P"[0] != "A"[0] && "P"[0] != "B"[0];
    assert "Q"[0] != "A"[0] && "Q"[0] != "B"[0] && "A"[0] != "B"[0];
    assert ["A", "B"][0] == "A" && ["A", "B"][1] == "B";
  }

  lemma DeclsAre()
    ensures DeclOf(PAIR, "P") == OF_A && DeclOf(PAIR, "Q") == OF_B
    ensures DeclOf(PAIR, "A") == DeclOf(PAIR, "B") == MEMBER
    ensures forall k :: k in PAIR.decls <==> k == "P" || k == "Q" || k == "A" || k == "B"
    ensures forall k :: k in PAIR.decls ==> PAIR.decls[k] == DeclOf(PAIR, k)
  {
    Names();
  }

  lemma PairFields()
    ensures OF_A.select == ["A"] && OF_B.select == ["B"] && MEMBER.select == []
    ensures OF_A.depends == OF_B.depends == MEMBER.depends == None
    ensures OF_A.default == OF_B.default == MEMBER.default == None
    ensures OF_A.selectIf == OF_B.selectIf == MEMBER.selectIf == []
    ensures OF_A.defaultCond == OF_B.defaultCond == MEMBER.defaultCond == []
    ensures OF_A.datatype_ == OF_B.datatype_ == MEMBER.datatype_ == BoolType
    ensures OF_A.group == OF_B.group == None && MEMBER.group == Some(0)
    ensures OF_A.prompted && OF_B.prompted
  {
  }

  lemma Looked(k: Key)
    requires k in PAIR.decls
    ensures DependsKeys(PAIR, k) == DefaultKeys(PAIR, k) == IfKeys(PAIR.decls[k]) == {}
    ensures Targets(PAIR.decls[k]) == if k == "P" then {"A"} else if k == "Q" then {"B"} else {}
  {
    hide *;
    Names();
    DeclsAre();
    PairFields();
    KeysByDecl(PAIR, k, PAIR.decls[k]);
    NoCases();
  }

  lemma NoCases()
    ensures CasesKeys([]) == {}
  {
  }

  lemma PairIsSound()
    ensures Sound(PAIR)
  {
    hide *;
    Names();
    DeclsAre();
    PairFields();
    forall k | k in PAIR.decls
      ensures SoundDecl(PAIR, PAIR.decls[k])
    {
      Looked(k);
      SoundFromParts(PAIR, PAIR.decls[k]);
    }
    PairMembers();
    SoundFrom(PAIR);
  }

  lemma PairMembers()
    ensures forall k, g :: k in MembersOf(PAIR, g) <==> k in PAIR.decls && DeclOf(PAIR, k).group == Some(g)
    ensures forall g :: NoDup(MembersOf(PAIR, g))
    ensures NoDup(PAIR.order) && forall k :: k in PAIR.order <==> k in PAIR.decls
  {
    Names();
  }

  lemma PairIsRanked()
    ensures Ranked(PAIR, LEVELS)
  {
    hide *;
    Names();
    DeclsAre();
    forall k | k in PAIR.decls
      ensures DependsKeys(PAIR, k) == DefaultKeys(PAIR, k) == IfKeys(PAIR.decls[k]) == {}
      ensures Targets(PAIR.decls[k]) == if k == "P" then {"A"} else if k == "Q" then {"B"} else {}
    {
      Looked(k);
    }
    PairLevels();
    RankedFrom(PAIR, LEVELS);
  }

  lemma PairLevels()
    ensures LEVELS.Keys == PAIR.decls.Keys
    ensures RankOf(LEVELS, "P") == 0 && RankOf(LEVELS, "Q") == 1 && RankOf(LEVELS, "A") == RankOf(LEVELS, "B") == 2
    ensures forall a, b :: a in PAIR.decls && b in PAIR.decls ==>
              (RankOf(LEVELS, a) == RankOf(LEVELS, b) <==> a == b || SameGroup(PAIR, a, b))
    ensures forall k :: k in PAIR.decls ==> RankOf(LEVELS, k) < 3
  {
    Names();
  }

  lemma PairIsAllowed()
    ensures Sound(PAIR) && Ranked(PAIR, LEVELS) && forall k :: k in PAIR.decls ==> RankOf(LEVELS, k) < 3
  {
    hide *;
    PairIsSound();
    PairIsRanked();
    PairLevels();
  }

  lemma Texts()
    ensures Converts(PAIR, YES_P) && Converts(PAIR, YES_Q) && YES_P.key == "P" && YES_Q.key == "Q"
  {
    Names();
  }

  lemma WhatTaken(a: State, b: State, x: Setting)
    requires (x == YES_P || x == YES_Q) && Taken(PAIR, LEVELS, a, b, x)
    ensures Keeps(PAIR, a, b, Loosened(PAIR, x)) && Same(PAIR, LEVELS, a, b, RankOf(LEVELS, x.key))
    ensures Same(PAIR, LEVELS, SetOwn(PAIR, a, x.key, B(true), true), b, RankOf(LEVELS, x.key) + 1)
  {
    hide Keeps, Same, SetOwn, Good, SameWishes, RankOf, Shape;
    Names();
  }

  /** P or Q, once set, is on. */
  lemma GoesOn(a: State, b: State, k: Key)
    requires (k == "P" || k == "Q") && Same(PAIR, LEVELS, SetOwn(PAIR, a, k, B(true), true), b, RankOf(LEVELS, k) + 1)
    ensures On(b, k)
  {
    hide *;
    Names();
    SameOpt(PAIR, LEVELS, SetOwn(PAIR, a, k, B(true), true), b, RankOf(LEVELS, k) + 1, k);
    OnByOpt(SetOwn(PAIR, a, k, B(true), true), b, k);
    OwnGoesOn(a, k);
  }

  lemma OwnGoesOn(a: State, k: Key)
    requires k == "P" || k == "Q"
    ensures On(SetOwn(PAIR, a, k, B(true), true), k)
  {
    Names();
  }

  lemma StillOn(a: State, b: State)
    requires Same(PAIR, LEVELS, a, b, RankOf(LEVELS, "Q")) && On(a, "P")
    ensures On(b, "P")
  {
    hide *;
    Names();
    PairLevels();
    SameOpt(PAIR, LEVELS, a, b, RankOf(LEVELS, "Q"), "P");
    OnByOpt(a, b, "P");
  }

  /** The facts about links and choices. */
  ghost predicate LinksGood(st: State) {
    (forall s, k :: Good(PAIR, st, Linked(s, k))) && forall g :: Good(PAIR, st, Exclusive(g))
  }

  lemma StaysGood(a: State, b: State, x: Setting)
    requires (forall f: Fact :: Good(PAIR, a, f)) || LinksGood(a)
    requires Keeps(PAIR, a, b, Loosened(PAIR, x))
    ensures LinksGood(b)
  {
    hide Good;
    forall s, k
      ensures Good(PAIR, b, Linked(s, k))
    {
      assert Linked(s, k) !in Loosened(PAIR, x) && Good(PAIR, a, Linked(s, k));
    }
    forall g
      ensures Good(PAIR, b, Exclusive(g))
    {
      assert Exclusive(g) !in Loosened(PAIR, x) && Good(PAIR, a, Exclusive(g));
    }
  }

  lemma BothSelected(st: State)
    requires LinksGood(st) && On(st, "P") && On(st, "Q")
    ensures "P" in OptOf(st, "A").selectedBy && "Q" in OptOf(st, "B").selectedBy && Good(PAIR, st, Exclusive(0))
  {
    hide *;
    Names();
    SelectedNow(st, "P", "A");
    SelectedNow(st, "Q", "B");
    hide Good;
    LinksAre(st);
  }

  lemma LinksAre(st: State)
    requires LinksGood(st)
    ensures (forall s, k :: Good(PAIR, st, Linked(s, k))) && Good(PAIR, st, Exclusive(0))
  {
    hide Good;
  }

  lemma SelectedNow(st: State, s: Key, k: Key)
    requires LinksGood(st) && On(st, s) && ((s == "P" && k == "A") || (s == "Q" && k == "B"))
    ensures s in OptOf(st, k).selectedBy
  {
    hide *;
    LinksAre(st);
    Names();
    DeclsAre();
    PairFields();
    Looked(s);
    ALinkIs(PAIR, st, s, k);
  }

  lemma ALinkIs(db: Db, st: State, s: Key, k: Key)
    requires s in db.decls && k in db.decls && k in Targets(db.decls[s]) && db.decls[s].group == None &&
             db.decls[s].selectIf == []
    requires Good(db, st, Linked(s, k)) && On(st, s)
    ensures s in OptOf(st, k).selectedBy
  {
    hide Targets, IfKeys, Holds;
    assert Steady(db, Linked(s, k));
  }
}
