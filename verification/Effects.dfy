/** What setting, defaulting and forcing an option do on the option's own level, and the
    facts they keep and settle there. */
module Effects {
  import opened Wrappers
  import opened Options
  import opened Choices
  import opened Levels
  import opened Consistency

  /** Giving an option its default unless the user set it. For a member of a choice the
      best default of the choice is picked. */
  function DefaultOwn(db: Db, st: State, k: Key): State {
    if OptOf(st, k).userSet then st
    else
      match DeclOf(db, k).group
      case Some(g) => ChooseDefault(db, st, g)
      case None => SetOwn(db, st, k, DefaultOf(db, st, k), false)
  }

  function WithSelectors(st: State, k: Key, sel: set<Key>): State {
    WithOpt(st, k, OptOf(st, k).(selectedBy := sel))
  }

  /** What becomes of an option whose selectors have changed: it goes on while there are
      any, and back to what was asked for or to the default when the last one is gone. */
  function Reselect(db: Db, st: State, k: Key): State {
    if OptOf(st, k).selectedBy != {} then SetOwn(db, st, k, B(true), false)
    else if OptOf(st, k).requested.Some? then SetOwn(db, st, k, OptOf(st, k).requested.value, true)
    else DefaultOwn(db, st, k)
  }

  /** Adding or dropping src as a selector of k. */
  function Force(db: Db, st: State, k: Key, v: bool, src: Key): State {
    var sel := OptOf(st, k).selectedBy;
    if k !in db.decls || v == (src in sel) then st
    else Reselect(db, WithSelectors(st, k, if v then sel + {src} else sel - {src}), k)
  }

  /*** Setting ***/

  lemma SetOwnIsStep(db: Db, st: State, k: Key, v: Value, user: bool)
    requires Sound(db) && Shape(db, st) && k in db.decls && HasType(v, DeclOf(db, k).datatype_)
    ensures OwnStep(db, st, SetOwn(db, st, k, v, user), k, user)
  {
    hide Sound, Shape, SetOwn, OnlyLevel, FullOrSame, AtMostOneOn, Firm;
    SetOwnStep(db, st, k, v, user);
    forall g | DeclOf(db, k).group == Some(g)
      ensures Firm(db, st, SetOwn(db, st, k, v, user), g)
    {
      SetOwnFirm(db, st, k, v, user, g);
    }
  }

  lemma SetOwnFree(db: Db, st: State, k: Key, v: Value, user: bool)
    requires Free(db, k) && HasType(v, DeclOf(db, k).datatype_)
    ensures var r, o := SetOwn(db, st, k, v, user), OptOf(st, k);
            && OptOf(r, k).userSet == (o.userSet || user)
            && OptOf(r, k).requested == (if user then Some(v) else o.requested)
            && OptOf(r, k).selectedBy == o.selectedBy
            && ValueOf(r, k) == if Blocked(db, Flagged(db, st, k, v, user), k, v) then o.value else v
  {
    hide Blocked;
  }

  /** An option sees the same before and after it is set. */
  lemma OwnSight(db: Db, rank: Ranks, a: State, b: State, k: Key)
    requires Ranked(db, rank) && k in db.decls && OnlyLevel(db, a, b, k)
    ensures CanEnable(db, a, k) <==> CanEnable(db, b, k)
    ensures DefaultOf(db, a, k) == DefaultOf(db, b, k)
  {
    hide *;
    OnLevelBelow(db, rank, a, b, k);
    SameSight(db, rank, a, b, RankOf(rank, k), k);
  }

  /** Setting an unselected option to the value it wants, or turning off one that cannot be
      enabled, settles it. */
  lemma SetOwnMeets(db: Db, rank: Ranks, st: State, k: Key, v: Value, user: bool, want: Option<Value>)
    requires Sound(db) && Ranked(db, rank) && Shape(db, st) && Free(db, k) && HasType(v, DeclOf(db, k).datatype_)
    requires OptOf(st, k).selectedBy == {}
    requires want == Some(v) || (v == B(false) && !CanEnable(db, st, k))
    ensures Meets(db, SetOwn(db, st, k, v, user), k, want)
  {
    hide Sound, Ranked, Shape, SetOwn, Flagged, CanEnable, OnlyLevel;
    SetOwnFree(db, st, k, v, user);
    SetOwnStep(db, st, k, v, user);
    OwnSight(db, rank, st, SetOwn(db, st, k, v, user), k);
    FlaggedStep(db, st, k, v, user);
    OwnSight(db, rank, st, Flagged(db, st, k, v, user), k);
  }

  lemma SetOwnForced(db: Db, st: State, k: Key, v: Value, user: bool)
    requires HasType(v, DeclOf(db, k).datatype_)
    requires Good(db, st, Forced(k)) || v == B(true)
    requires Free(db, k) && (OptOf(st, k).selectedBy != {} ==> DeclOf(db, k).datatype_ == BoolType)
    ensures Good(db, SetOwn(db, st, k, v, user), Forced(k))
  {
    hide SetOwn, CanEnable, Rivalled;
    SetOwnFree(db, st, k, v, user);
  }

  lemma SelectedIsBool(db: Db, st: State, k: Key)
    requires Sound(db) && Shape(db, st) && k in db.decls && OptOf(st, k).selectedBy != {}
    ensures DeclOf(db, k).datatype_ == BoolType
  {
    var s :| s in OptOf(st, k).selectedBy;
    assert ShapeAt(db, k, OptOf(st, k));
    assert SoundDecl(db, db.decls[s]);
  }

  lemma SetOwnKeeps(db: Db, rank: Ranks, st: State, k: Key, v: Value, user: bool, f: Fact)
    requires Sound(db) && Ranked(db, rank) && Shape(db, st) && k in db.decls && HasType(v, DeclOf(db, k).datatype_)
    requires LevelOf(db, rank, f) <= RankOf(rank, k) && !Own(db, f, k, user) && Good(db, st, f)
    ensures Good(db, SetOwn(db, st, k, v, user), f)
  {
    hide Sound, Ranked, Shape, SetOwn, RankOf, OwnStep, Good, Own, LevelOf;
    SetOwnIsStep(db, st, k, v, user);
    if f == Forced(k) && Free(db, k) {
      if OptOf(st, k).selectedBy != {} {
        SelectedIsBool(db, st, k);
      }
      SetOwnForced(db, st, k, v, user);
    } else {
      OwnStepKeeps(db, rank, st, SetOwn(db, st, k, v, user), k, user, f);
    }
  }

  /** What the user asks for is met. */
  lemma AskedSettles(db: Db, rank: Ranks, st: State, k: Key, v: Value)
    requires Sound(db) && Ranked(db, rank) && Shape(db, st) && Free(db, k) && HasType(v, DeclOf(db, k).datatype_)
    ensures Good(db, SetOwn(db, st, k, v, true), Asked(k)) && Good(db, SetOwn(db, st, k, v, true), Defaulted(k))
  {
    hide Sound, Ranked, Shape, SetOwn, Meets;
    SetOwnFree(db, st, k, v, true);
    if OptOf(st, k).selectedBy == {} {
      SetOwnMeets(db, rank, st, k, v, true, Some(v));
    }
  }

  lemma OffSettles(db: Db, rank: Ranks, st: State, k: Key)
    requires Sound(db) && Ranked(db, rank) && Shape(db, st) && Free(db, k)
    requires DeclOf(db, k).datatype_ == BoolType && !CanEnable(db, st, k)
    ensures var r := SetOwn(db, st, k, B(false), false);
            Good(db, r, Asked(k)) && Good(db, r, Defaulted(k)) && (Good(db, st, Unset(k)) ==> Good(db, r, Unset(k)))
  {
    hide Sound, Ranked, Shape, SetOwn, Meets, CanEnable, DefaultOf, OnlyLevel;
    SetOwnFree(db, st, k, B(false), false);
    var r := SetOwn(db, st, k, B(false), false);
    if OptOf(st, k).selectedBy == {} {
      SetOwnMeets(db, rank, st, k, B(false), false, OptOf(st, k).requested);
      SetOwnMeets(db, rank, st, k, B(false), false, Some(DefaultOf(db, r, k)));
    }
  }

  lemma DefaultSettles(db: Db, rank: Ranks, st: State, k: Key)
    requires Sound(db) && Ranked(db, rank) && Shape(db, st) && Free(db, k) && !OptOf(st, k).userSet
    ensures var r := SetOwn(db, st, k, DefaultOf(db, st, k), false);
            Good(db, r, Asked(k)) && Good(db, r, Defaulted(k)) && Good(db, r, Unset(k))
  {
    hide Sound, Ranked, Shape, SetOwn, Meets, CanEnable, DefaultOf, OnlyLevel;
    var v := DefaultOf(db, st, k);
    DefaultHasType(db, st, k);
    SetOwnFree(db, st, k, v, false);
    SetOwnStep(db, st, k, v, false);
    OwnSight(db, rank, st, SetOwn(db, st, k, v, false), k);
    if OptOf(st, k).selectedBy == {} {
      SetOwnMeets(db, rank, st, k, v, false, Some(v));
    }
  }

  lemma DefaultHasType(db: Db, st: State, k: Key)
    requires Sound(db) && Shape(db, st) && k in db.decls
    ensures HasType(DefaultOf(db, st, k), DeclOf(db, k).datatype_)
  {
    hide Shape, DefaultOf;
    ShapeIsTyped(db, st);
    assert SoundDecl(db, db.decls[k]);
    DefaultIsTyped(db, st, k);
  }

  /*** Defaulting ***/

  lemma DefaultOwnIsStep(db: Db, st: State, k: Key)
    requires Sound(db) && Shape(db, st) && k in db.decls
    ensures OwnStep(db, st, DefaultOwn(db, st, k), k, false)
  {
    hide Sound, Shape, SetOwn, OnlyLevel, ChooseDefault, DefaultOf, AtMostOneOn;
    hide Firm;
    if OptOf(st, k).userSet {
      OnlyLevelStart(db, st, k);
      StaysFirm(db, st);
    } else if DeclOf(db, k).group.Some? {
      GroupIsKnown(db, k);
      ChooseDefaultStep(db, st, DeclOf(db, k).group.value, k);
      ChooseDefaultFills(db, st, DeclOf(db, k).group.value);
      ChooseDefaultFirm(db, st, DeclOf(db, k).group.value);
    } else {
      DefaultHasType(db, st, k);
      SetOwnStep(db, st, k, DefaultOf(db, st, k), false);
    }
  }

  lemma StaysFirm(db: Db, st: State)
    ensures forall g :: Firm(db, st, st, g)
  {
    hide Rivalled;
  }

  lemma DefaultOwnSettles(db: Db, rank: Ranks, st: State, k: Key)
    requires Sound(db) && Ranked(db, rank) && Shape(db, st) && k in db.decls
    ensures Good(db, DefaultOwn(db, st, k), Defaulted(k))
  {
    hide Sound, Ranked, Shape, SetOwn, Meets, DefaultOf, ChooseDefault;
    if Free(db, k) && !OptOf(st, k).userSet {
      DefaultSettles(db, rank, st, k);
    }
  }

  /*** What was asked of a choice ***/

  ghost predicate SameChoiceAs(db: Db, g: Group, x: Key, k: Key) {
    x in MembersOf(db, g) && k in MembersOf(db, g)
  }

  /** A step on the level of k after which the member asked for is on, if it can be. */
  lemma AskedFrom(db: Db, rank: Ranks, a: State, b: State, g: Group, k: Key, x: Key)
    requires Sound(db) && Ranked(db, rank) && SameChoiceAs(db, g, x, k) && OnlyLevel(db, a, b, k) && Firm(db, a, b, g)
    requires Good(db, a, Picked(x))
    requires Alone(db, x) && Grips(db, a, g, x) && ChoiceOf(b, g).requested == Some(x) && CanEnable(db, a, x) ==>
               On(b, x)
    ensures Good(db, b, Asked(x)) && Good(db, b, Picked(x))
  {
    hide Sound, Ranked, OnlyLevel, Rivalled, Steady, CanEnable, AtMostOneOn, RankOf;
    SameChoice(db, g, k, x);
    MemberSight(db, rank, a, b, g, k, x);
  }

  /** The same when it was as asked before. */
  lemma AskedKept(db: Db, rank: Ranks, a: State, b: State, g: Group, k: Key, x: Key)
    requires Sound(db) && Ranked(db, rank) && SameChoiceAs(db, g, x, k) && OnlyLevel(db, a, b, k) && Firm(db, a, b, g)
    requires Good(db, a, Asked(x))
    requires Alone(db, x) && Grips(db, a, g, x) && Wished(db, a, x) && ChoiceOf(b, g).requested == Some(x) &&
             CanEnable(db, a, x) ==>
               On(b, x)
    ensures Good(db, b, Asked(x))
  {
    hide Sound, Ranked, OnlyLevel, Rivalled, Steady, CanEnable, AtMostOneOn, RankOf, Grips, ChoiceOf;
    SameChoice(db, g, k, x);
    SameChoice(db, g, x, k);
    MemberSight(db, rank, a, b, g, k, x);
    MemberIsGripped(db, a, b, g, x);
  }

  lemma MemberIsGripped(db: Db, a: State, b: State, g: Group, x: Key)
    requires Sound(db) && x in MembersOf(db, g) && Firm(db, a, b, g)
    ensures Alone(db, x) && Grips(db, a, g, x) ==> Grips(db, b, g, x)
    ensures ChoiceWith(db, x) == g && !Free(db, x) && (Alone(db, x) <==> !Rivalled(db, x))
  {
    hide Rivalled, Grips;
    SameChoice(db, g, x, x);
  }

  /** Picking a default brings on what the user asked for. */
  lemma DefaultAsked(db: Db, rank: Ranks, st: State, g: Group, k: Key, x: Key)
    requires Sound(db) && Ranked(db, rank) && Shape(db, st) && SameChoiceAs(db, g, x, k)
    ensures Good(db, st, Picked(x)) || Good(db, st, Asked(x)) ==> Good(db, ChooseDefault(db, st, g), Asked(x))
  {
    hide Sound, Ranked, Shape, ChooseDefault, OnlyLevel, Firm, Rivalled, CanEnable, Good, Grips, Wished;
    var b := ChooseDefault(db, st, g);
    ChooseDefaultStep(db, st, g, k);
    ChooseDefaultFirm(db, st, g);
    MemberIsGripped(db, st, b, g, x);
    if Alone(db, x) && Grips(db, st, g, x) && ChoiceOf(b, g).requested == Some(x) && CanEnable(db, st, x) {
      AskedComesOn(db, st, g, x);
    }
    if Good(db, st, Picked(x)) {
      AskedFrom(db, rank, st, b, g, k, x);
    } else if Good(db, st, Asked(x)) {
      AskedKept(db, rank, st, b, g, k, x);
    }
  }

  /** Turning members off leaves on what the user asked for, unless it cannot be. */
  lemma OffKeepsOn(db: Db, rank: Ranks, st: State, g: Group, k: Key, user: bool, x: Key)
    requires Sound(db) && Ranked(db, rank) && Shape(db, st) && SameChoiceAs(db, g, x, k)
    requires AtMostOneOn(db, st, g) && On(st, x) && CanEnable(db, st, x)
    ensures On(SetOwn(db, st, k, B(false), user), x)
  {
    hide *;
    var s := Flagged(db, st, k, B(false), user);
    var p := Put(s, k, B(false));
    InChoice(db, g, x, k);
    BoolsAre();
    SetOwnCases(db, st, k, B(false), user, g);
    FlaggedStep(db, st, k, B(false), user);
    FlaggedValues(db, st, k, B(false), user);
    OnValue(s, x);
    OnValue(st, x);
    PutElsewhere(s, k, B(false), x);
    if !Blocked(db, s, k, B(false)) {
      if x != k {
        ItIsOn(s, MembersOf(db, g), k, x);
      } else {
        NoOtherIsOn(db, st, s, g, k);
        PutStep(db, s, k, B(false));
        OnlyLevelOn(db, st, s, p, k);
        OwnSight(db, rank, st, p, k);
        PutElsewhere(Select(p, g, Some(k)), k, B(true), k);
        OnValue(Put(Select(p, g, Some(k)), k, B(true)), k);
      }
    }
  }

  lemma ItIsOn(st: State, ms: seq<Key>, key: Key, x: Key)
    requires x in ms && x != key && On(st, x)
    ensures OtherOn(st, ms, key)
  {
  }

  lemma NoOtherIsOn(db: Db, a: State, b: State, g: Group, k: Key)
    requires AtMostOneOn(db, a, g) && On(a, k) && k in MembersOf(db, g) && forall x :: ValueOf(a, x) == ValueOf(b, x)
    ensures !OtherOn(b, MembersOf(db, g), k)
  {
    forall m
      ensures On(a, m) <==> On(b, m)
    {
      assert ValueOf(a, m) == ValueOf(b, m);
    }
  }

  lemma GripsIs(db: Db, st: State, g: Group, k: Key)
    requires Grips(db, st, g, k)
    ensures AtMostOneOn(db, st, g)
  {
  }

  lemma WishedIs(db: Db, st: State, k: Key, g: Group)
    requires Wished(db, st, k) && ChoiceWith(db, k) == g && ChoiceOf(st, g).requested == Some(k) && CanEnable(db, st, k)
    ensures On(st, k)
  {
  }

  lemma OffAsked(db: Db, rank: Ranks, st: State, g: Group, k: Key, user: bool, x: Key)
    requires Sound(db) && Ranked(db, rank) && Shape(db, st) && SameChoiceAs(db, g, x, k) && Good(db, st, Asked(x))
    ensures Good(db, SetOwn(db, st, k, B(false), user), Asked(x))
  {
    hide *;
    var b := SetOwn(db, st, k, B(false), user);
    InChoice(db, g, x, k);
    BoolsAre();
    SetOwnStep(db, st, k, B(false), user);
    SetOwnFirm(db, st, k, B(false), user, g);
    MemberIsGripped(db, st, b, g, x);
    if Alone(db, x) && Grips(db, st, g, x) && Wished(db, st, x) && ChoiceOf(b, g).requested == Some(x) &&
      CanEnable(db, st, x) {
      GripsIs(db, st, g, x);
      WishedIs(db, st, x, g);
      OffKeepsOn(db, rank, st, g, k, user, x);
    }
    AskedKept(db, rank, st, b, g, k, x);
  }

  lemma InChoice(db: Db, g: Group, x: Key, k: Key)
    requires Sound(db) && SameChoiceAs(db, g, x, k)
    ensures k in db.decls && x in db.decls && DeclOf(db, k).group == Some(g) && DeclOf(db, x).group == Some(g)
    ensures DeclOf(db, k).datatype_ == BoolType && k in MembersOf(db, g) && x in MembersOf(db, g)
  {
    hide Sound;
    SameChoice(db, g, x, k);
    SameChoice(db, g, k, x);
  }

  /** A user's wish for a member is met, and no other member is the one asked for. */
  lemma OnAsked(db: Db, rank: Ranks, st: State, g: Group, k: Key, x: Key)
    requires Sound(db) && Ranked(db, rank) && Shape(db, st) && SameChoiceAs(db, g, x, k)
    ensures Good(db, st, Picked(x)) || Good(db, st, Asked(x)) ==> Good(db, SetOwn(db, st, k, B(true), true), Asked(x))
  {
    hide *;
    var b := SetOwn(db, st, k, B(true), true);
    InChoice(db, g, x, k);
    BoolsAre();
    SetOwnStep(db, st, k, B(true), true);
    SetOwnFirm(db, st, k, B(true), true, g);
    MemberIsGripped(db, st, b, g, x);
    if x == k && Alone(db, k) && CanEnable(db, st, k) {
      TurnsOn(db, st, g, k, true);
    }
    if Good(db, st, Picked(x)) {
      AskedFrom(db, rank, st, b, g, k, x);
    } else if Good(db, st, Asked(x)) {
      AskedKept(db, rank, st, b, g, k, x);
    }
  }

  /** A member without rivals that can be enabled, or is selected, goes on when told to. */
  lemma TurnsOn(db: Db, st: State, g: Group, k: Key, user: bool)
    requires Sound(db) && Shape(db, st) && k in MembersOf(db, g) && !Rivalled(db, k)
    requires CanEnable(db, st, k) || OptOf(st, k).selectedBy != {}
    ensures On(SetOwn(db, st, k, B(true), user), k)
  {
    hide *;
    SameChoice(db, g, k, k);
    BoolsAre();
    SetOwnCases(db, st, k, B(true), user, g);
    SetOnFirm(db, st, g, k, user);
    FlaggedValues(db, st, k, B(true), user);
    var f := Flagged(db, st, k, B(true), user);
    SameValuesSight(db, st, f, k);
    NotBlocked(db, f, k);
  }

  lemma NotBlocked(db: Db, st: State, k: Key)
    requires CanEnable(db, st, k) || OptOf(st, k).selectedBy != {}
    ensures !Blocked(db, st, k, B(true))
  {
    hide CanEnable;
  }

  lemma MemberSight(db: Db, rank: Ranks, a: State, b: State, g: Group, k: Key, x: Key)
    requires Sound(db) && Ranked(db, rank) && SameChoiceAs(db, g, x, k) && OnlyLevel(db, a, b, k)
    ensures CanEnable(db, a, x) <==> CanEnable(db, b, x)
  {
    hide Sound, Ranked, OnlyLevel, CanEnable, RankOf;
    MemberRank(db, rank, g, k);
    MemberRank(db, rank, g, x);
    OnLevelBelow(db, rank, a, b, k);
    SameSight(db, rank, a, b, RankOf(rank, k), x);
  }
  /*** Forcing ***/

  /** The facts that new selectors of k can upset, links apart. */
  predicate OfOption(db: Db, f: Fact, k: Key) {
    f == Forced(k) || (Free(db, k) && (f == Asked(k) || f == Defaulted(k)))
  }

  /** Changing whether src selects k upsets no fact but those about k and its selectors. */
  lemma SelectorKeeps(db: Db, st: State, k: Key, sel: set<Key>, src: Key, f: Fact)
    requires forall s :: s != src ==> (s in sel <==> s in OptOf(st, k).selectedBy)
    requires !OfOption(db, f, k) && f != Linked(src, k)
    ensures Good(db, st, f) <==> Good(db, WithSelectors(st, k, sel), f)
  {
    hide Good, OptOf, WithSelectors, SameValues, Free;
    var r := WithSelectors(st, k, sel);
    WithSelectorsIs(st, k, sel);
    match f
    case Exclusive(g) => ChoiceSelectors(db, st, r, g);
    case Recorded(g) => ChoiceSelectors(db, st, r, g);
    case Chosen(g) => ChoiceSelectors(db, st, r, g);
    case Picked(x) => MemberSelectors(db, st, r, x);
    case Forced(x) => ForcedSelectors(db, st, r, k, x);
    case Unset(x) => UnsetSelectors(db, st, r, x);
    case Asked(x) => AskedSelectors(db, st, r, k, x);
    case Defaulted(x) => DefaultedSelectors(db, st, r, k, x);
    case Linked(s, x) => LinkedSelectors(db, st, r, k, src, s, x);
  }

  /** b has the values and choices of a. */
  ghost predicate SameValues(a: State, b: State) {
    (forall x :: ValueOf(b, x) == ValueOf(a, x)) && b.choices == a.choices
  }

  lemma WithSelectorsIs(st: State, k: Key, sel: set<Key>)
    ensures var r := WithSelectors(st, k, sel);
            && SameValues(st, r)
            && (forall x :: OptOf(r, x) == if x == k then OptOf(st, k).(selectedBy := sel) else OptOf(st, x))
  {
  }

  lemma ChoiceSelectors(db: Db, a: State, b: State, g: Group)
    requires SameValues(a, b)
    ensures Good(db, a, Exclusive(g)) <==> Good(db, b, Exclusive(g))
    ensures Good(db, a, Recorded(g)) <==> Good(db, b, Recorded(g))
    ensures Good(db, a, Chosen(g)) <==> Good(db, b, Chosen(g))
  {
    hide Steady, SomeOn, Enableable, ValueOf;
    SameValuesFull(db, a, b, g);
    SameOns(a, b);
  }

  lemma SameOns(a: State, b: State)
    requires SameValues(a, b)
    ensures forall x :: On(a, x) <==> On(b, x)
    ensures forall g :: ChoiceOf(a, g) == ChoiceOf(b, g)
  {
  }

  lemma MemberSelectors(db: Db, a: State, b: State, x: Key)
    requires SameValues(a, b)
    ensures Good(db, a, Picked(x)) <==> Good(db, b, Picked(x))
    ensures Alone(db, x) ==> (Grips(db, a, ChoiceWith(db, x), x) <==> Grips(db, b, ChoiceWith(db, x), x))
    ensures Wished(db, a, x) <==> Wished(db, b, x)
  {
    hide Steady, Rivalled, ValueOf, CanEnable;
    SameOns(a, b);
    SameValuesSight(db, a, b, x);
  }

  lemma ForcedSelectors(db: Db, a: State, b: State, k: Key, x: Key)
    requires SameValues(a, b) && x != k && OptOf(b, x) == OptOf(a, x)
    ensures Good(db, a, Forced(x)) <==> Good(db, b, Forced(x))
  {
    hide Rivalled;
    SameOns(a, b);
  }

  lemma UnsetSelectors(db: Db, a: State, b: State, x: Key)
    requires OptOf(b, x).userSet == OptOf(a, x).userSet
    ensures Good(db, a, Unset(x)) <==> Good(db, b, Unset(x))
  {
  }

  lemma AskedSelectors(db: Db, a: State, b: State, k: Key, x: Key)
    requires SameValues(a, b) && (Free(db, x) ==> OptOf(b, x) == OptOf(a, x))
    ensures Good(db, a, Asked(x)) <==> Good(db, b, Asked(x))
  {
    hide Steady, Alone, Grips, Wished, CanEnable, OptOf;
    MemberSelectors(db, a, b, x);
    SameValuesSight(db, a, b, x);
    if Free(db, x) {
      SameMeets(db, a, b, x, OptOf(a, x).requested);
    }
  }

  lemma DefaultedSelectors(db: Db, a: State, b: State, k: Key, x: Key)
    requires SameValues(a, b) && (Free(db, x) ==> OptOf(b, x) == OptOf(a, x))
    ensures Good(db, a, Defaulted(x)) <==> Good(db, b, Defaulted(x))
  {
    hide Steady, CanEnable, OptOf, DefaultOf, Meets;
    SameValuesSight(db, a, b, x);
    if Free(db, x) {
      SameMeets(db, a, b, x, Some(DefaultOf(db, a, x)));
    }
  }

  lemma LinkedSelectors(db: Db, a: State, b: State, k: Key, src: Key, s: Key, x: Key)
    requires SameValues(a, b) && (s != src || x != k)
    requires s in OptOf(b, x).selectedBy <==> s in OptOf(a, x).selectedBy
    ensures Good(db, a, Linked(s, x)) <==> Good(db, b, Linked(s, x))
  {
    hide Steady, Links, Picks, LastCond, OptOf;
    SameOns(a, b);
    if Links(db, s, x) {
      LinksKnown(db, s, x);
      SamePicks(db, a, b, s, x);
    }
  }

  lemma SelectorsStep(db: Db, st: State, k: Key, sel: set<Key>)
    requires Shape(db, st) && k in db.decls
    requires forall s :: s in sel ==> s in db.decls && k in Targets(db.decls[s])
    ensures Shape(db, WithSelectors(st, k, sel)) && OnlyLevel(db, st, WithSelectors(st, k, sel), k)
    ensures OptOf(WithSelectors(st, k, sel), k) == OptOf(st, k).(selectedBy := sel)
    ensures Touched(db, st, WithSelectors(st, k, sel), k) && ValueOf(WithSelectors(st, k, sel), k) == ValueOf(st, k)
  {
    ShapeOf(db, st, k);
    hide Shape, Targets;
    WithOptStep(db, st, k, OptOf(st, k).(selectedBy := sel));
  }

  lemma ReselectIsStep(db: Db, st: State, k: Key)
    requires Sound(db) && Shape(db, st) && k in db.decls
    ensures OwnStep(db, st, Reselect(db, st, k), k, Free(db, k))
  {
    hide Sound, SetOwn, DefaultOwn, Shape, FullOrSame, OnlyLevel, AtMostOneOn, Firm;
    ShapeOf(db, st, k);
    if OptOf(st, k).selectedBy != {} {
      SelectedIsBool(db, st, k);
      SetOwnIsStep(db, st, k, B(true), false);
    } else if OptOf(st, k).requested.Some? {
      SetOwnIsStep(db, st, k, OptOf(st, k).requested.value, true);
    } else {
      DefaultOwnIsStep(db, st, k);
    }
  }

  /** However its selectors changed, the option ends up as it should be. */
  lemma ReselectSettles(db: Db, rank: Ranks, st: State, k: Key)
    requires Sound(db) && Ranked(db, rank) && Shape(db, st) && Free(db, k)
    ensures var r := Reselect(db, st, k);
            && Good(db, r, Forced(k)) && Good(db, r, Asked(k)) && Good(db, r, Defaulted(k))
            && (Good(db, st, Unset(k)) ==> Good(db, r, Unset(k)))
  {
    hide Sound, Ranked, SetOwn, Shape, Meets, DefaultOf;
    ShapeOf(db, st, k);
    if OptOf(st, k).selectedBy != {} {
      SelectedIsBool(db, st, k);
      SetOwnForced(db, st, k, B(true), false);
      SetOwnFree(db, st, k, B(true), false);
    } else if OptOf(st, k).requested.Some? {
      SetOwnFree(db, st, k, OptOf(st, k).requested.value, true);
      AskedSettles(db, rank, st, k, OptOf(st, k).requested.value);
    } else {
      DefaultSettles(db, rank, st, k);
      DefaultHasType(db, st, k);
      SetOwnFree(db, st, k, DefaultOf(db, st, k), false);
    }
  }

  /** A member without rivals is on while it is selected. */
  lemma ReselectForces(db: Db, st: State, g: Group, k: Key)
    requires Sound(db) && Shape(db, st) && k in MembersOf(db, g)
    ensures Good(db, Reselect(db, st, k), Forced(k))
  {
    hide Sound, Shape, SetOwn, DefaultOwn, Rivalled, OnlyLevel;
    SameChoice(db, g, k, k);
    ReselectIsStep(db, st, k);
    if OptOf(st, k).selectedBy != {} && !Rivalled(db, k) {
      TurnsOn(db, st, g, k, false);
    }
  }

  /** Selecting a member leaves the one asked for as it was: that is it, or has a rival. */
  lemma ReselectAsked(db: Db, rank: Ranks, st: State, g: Group, k: Key, x: Key)
    requires Sound(db) && Ranked(db, rank) && Shape(db, st) && SameChoiceAs(db, g, x, k) && Good(db, st, Asked(x))
    ensures Good(db, Reselect(db, st, k), Asked(x))
  {
    hide *;
    InChoice(db, g, x, k);
    ReselectMember(db, st, k, g);
    if OptOf(st, k).selectedBy == {} {
      DefaultAsked(db, rank, st, g, k, x);
    } else {
      var b := SetOwn(db, st, k, B(true), false);
      BoolsAre();
      SetOwnStep(db, st, k, B(true), false);
      SetOwnFirm(db, st, k, B(true), false, g);
      MemberIsGripped(db, st, b, g, x);
      if Alone(db, x) {
        if x == k {
          TurnsOn(db, st, g, k, false);
        } else {
          SelectorsAre(db, st, k);
          SameChoice(db, g, k, x);
          ItIsARival(db, k, x);
        }
      }
      AskedKept(db, rank, st, b, g, k, x);
    }
  }

  lemma ItIsARival(db: Db, m: Key, k: Key)
    requires Selectable(db, m) && m != k && SameGroup(db, m, k)
    ensures Rivalled(db, k)
  {
    hide Selectable;
  }

  lemma ReselectMember(db: Db, st: State, k: Key, g: Group)
    requires Shape(db, st) && DeclOf(db, k).group == Some(g)
    ensures Reselect(db, st, k) ==
            if OptOf(st, k).selectedBy != {} then SetOwn(db, st, k, B(true), false)
            else if OptOf(st, k).userSet then st
            else ChooseDefault(db, st, g)
  {
    hide SetOwn, ChooseDefault, Shape;
    ShapeOf(db, st, k);
  }

  lemma ReselectKeeps(db: Db, rank: Ranks, st: State, k: Key, f: Fact)
    requires Sound(db) && Ranked(db, rank) && Shape(db, st) && k in db.decls
    requires LevelOf(db, rank, f) <= RankOf(rank, k) && (Good(db, st, f) || OfOption(db, f, k))
    ensures Good(db, Reselect(db, st, k), f)
  {
    hide Sound, Ranked, Shape, Reselect, RankOf, OwnStep, Good, LevelOf, SameGroup;
    if Free(db, k) && (OfOption(db, f, k) || Own(db, f, k, true)) {
      ReselectSettles(db, rank, st, k);
      FreeOwn(db, f, k);
    } else if f == Forced(k) {
      GroupIsKnown(db, k);
      ReselectForces(db, st, DeclOf(db, k).group.value, k);
    } else if Own(db, f, k, Free(db, k)) {
      MemberOwn(db, st, k, f);
      MemberOwn(db, Reselect(db, st, k), k, f);
      if f.Asked? {
        ReselectAsked(db, rank, st, ChoiceWith(db, k), k, f.k);
      }
    } else {
      ReselectIsStep(db, st, k);
      OwnStepKeeps(db, rank, st, Reselect(db, st, k), k, Free(db, k), f);
    }
  }

  lemma FreeOwn(db: Db, f: Fact, k: Key)
    requires Free(db, k)
    ensures Own(db, f, k, true) <==> f == Asked(k) || f == Defaulted(k) || f == Unset(k)
  {
  }

  /** Of the facts a member settles, those about its default are void. */
  lemma MemberOwn(db: Db, st: State, k: Key, f: Fact)
    requires Sound(db) && k in db.decls && !Free(db, k) && Own(db, f, k, false)
    ensures f.Asked? || Good(db, st, f)
    ensures f.Asked? ==> SameChoiceAs(db, ChoiceWith(db, k), f.k, k)
  {
    hide Sound;
    GroupIsKnown(db, k);
    if f.Asked? && f.k != k {
      GroupIsKnown(db, f.k);
    }
  }

  lemma NewSelectors(db: Db, st: State, k: Key, v: bool, src: Key)
    requires Shape(db, st) && src in db.decls && k in Targets(db.decls[src])
    ensures var sel := OptOf(st, k).selectedBy;
            forall s :: s in (if v then sel + {src} else sel - {src}) ==> s in db.decls && k in Targets(db.decls[s])
  {
    hide Targets;
    ShapeOf(db, st, k);
  }

  /** Forcing keeps every fact of its level and below but the one about the selector. */
  lemma ForceKeeps(db: Db, rank: Ranks, st: State, k: Key, v: bool, src: Key, f: Fact)
    requires Sound(db) && Ranked(db, rank) && Shape(db, st) && src in db.decls && k in Targets(db.decls[src])
    requires k in db.decls && LevelOf(db, rank, f) <= RankOf(rank, k) && f != Linked(src, k) && Good(db, st, f)
    ensures Good(db, Force(db, st, k, v, src), f)
  {
    hide Sound, Ranked, Shape, Reselect, RankOf, Good, LevelOf, Targets, WithSelectors, OnlyLevel, OptOf;
    var sel := OptOf(st, k).selectedBy;
    if v != (src in sel) {
      var now := if v then sel + {src} else sel - {src};
      NewSelectors(db, st, k, v, src);
      SelectorsStep(db, st, k, now);
      if !OfOption(db, f, k) {
        SelectorKeeps(db, st, k, now, src, f);
      }
      ReselectKeeps(db, rank, WithSelectors(st, k, now), k, f);
    }
  }

  /** Forcing records the selector, and keeps the shape and the level. */
  lemma ForceStep(db: Db, st: State, k: Key, v: bool, src: Key)
    requires Sound(db) && Shape(db, st) && src in db.decls && k in Targets(db.decls[src]) && k in db.decls
    ensures var r := Force(db, st, k, v, src);
            && Shape(db, r) && OnlyLevel(db, st, r, k)
            && OptOf(r, k).selectedBy == if v then OptOf(st, k).selectedBy + {src} else OptOf(st, k).selectedBy - {src}
  {
    hide Sound, Shape, Reselect, Targets, WithSelectors, OnlyLevel, OptOf;
    NewSelectors(db, st, k, v, src);
    OnlyLevelStart(db, st, k);
    var sel := OptOf(st, k).selectedBy;
    if v != (src in sel) {
      var now := if v then sel + {src} else sel - {src};
      SelectorsStep(db, st, k, now);
      var s := WithSelectors(st, k, now);
      ReselectIsStep(db, s, k);
      OnlyLevelOn(db, st, s, Reselect(db, s, k), k);
    }
  }
}
