/** Which member a choice falls back on. */
module ChoiceDefaults {
  import opened Wrappers
  import opened Options
  import opened Choices

  /*** The reasons to pick a member that can be enabled, best first ***/

  /** A conditional default of the member that applies, or failing such its plain default,
      is y. */
  predicate DefaultsToYes(st: State, d: Decl) {
    YesByCase(st, d) || YesPlainly(st, d)
  }

  predicate YesByCase(st: State, d: Decl) {
    exists i :: 0 <= i < |d.defaultCond| &&
      Holds(st, d.defaultCond[i].0) && ExprResult(st, d.defaultCond[i].1) == B(true)
  }

  predicate YesPlainly(st: State, d: Decl) {
    d.default.Some? && ExprResult(st, d.default.value) == B(true)
  }

  /** It is selected, and neither is it the one asked for nor, unless the user set it, on by
      a default of its own. */
  predicate Selected(db: Db, st: State, g: Group, m: Key) {
    && CanEnable(db, st, m) && OptOf(st, m).selectedBy != {}
    && if OptOf(st, m).userSet then ChoiceOf(st, g).requested != Some(m) else !DefaultsToYes(st, DeclOf(db, m))
  }

  /** The user asked for it last. */
  predicate AskedFor(db: Db, st: State, g: Group, m: Key) {
    CanEnable(db, st, m) && OptOf(st, m).userSet && ChoiceOf(st, g).requested == Some(m)
  }

  predicate OnByCase(db: Db, st: State, m: Key) {
    CanEnable(db, st, m) && !OptOf(st, m).userSet && YesByCase(st, DeclOf(db, m))
  }

  predicate OnPlainly(db: Db, st: State, m: Key) {
    && CanEnable(db, st, m) && !OptOf(st, m).userSet
    && !YesByCase(st, DeclOf(db, m)) && YesPlainly(st, DeclOf(db, m))
  }

  /** None of these. */
  predicate Plain(db: Db, st: State, g: Group, m: Key) {
    && CanEnable(db, st, m)
    && !Selected(db, st, g, m) && !AskedFor(db, st, g, m) && !OnByCase(db, st, m) && !OnPlainly(db, st, m)
  }

  /** There is the same reason for both. */
  predicate AlikeIn(db: Db, st: State, g: Group, k: Key, m: Key) {
    || (Selected(db, st, g, k) && Selected(db, st, g, m))
    || (AskedFor(db, st, g, k) && AskedFor(db, st, g, m))
    || (OnByCase(db, st, k) && OnByCase(db, st, m))
    || (OnPlainly(db, st, k) && OnPlainly(db, st, m))
    || (Plain(db, st, g, k) && Plain(db, st, g, m))
  }

  /** k is as good a default as m, for a better reason or by its place. */
  predicate AsGood(db: Db, st: State, g: Group, k: Key, m: Key) {
    && (Selected(db, st, g, m) ==> Selected(db, st, g, k))
    && (AskedFor(db, st, g, m) ==> Selected(db, st, g, k) || AskedFor(db, st, g, k))
    && (OnByCase(db, st, m) ==> Selected(db, st, g, k) || AskedFor(db, st, g, k) || OnByCase(db, st, k))
    && (OnPlainly(db, st, m) ==> CanEnable(db, st, k) && !Plain(db, st, g, k))
    && (CanEnable(db, st, m) ==> CanEnable(db, st, k))
    && (AlikeIn(db, st, g, k, m) ==> DeclOf(db, k).position <= DeclOf(db, m).position)
  }

  /*** What is picked ***/

  /** The five reasons shut each other out. */
  lemma OneReason(db: Db, st: State, g: Group, m: Key)
    requires CanEnable(db, st, m)
    ensures AskedFor(db, st, g, m) ==> !Selected(db, st, g, m) && !OnByCase(db, st, m) && !OnPlainly(db, st, m)
    ensures OnByCase(db, st, m) ==> !Selected(db, st, g, m) && !OnPlainly(db, st, m)
    ensures OnPlainly(db, st, m) ==> !Selected(db, st, g, m)
  {
    hide CanEnable, YesByCase, YesPlainly;
  }

  lemma RankIs(db: Db, st: State, g: Group, m: Key)
    ensures var r := ChoiceRank(db, st, m, ChoiceOf(st, g).requested);
            && r.1 == DeclOf(db, m).position
            && (Selected(db, st, g, m) ==> r.0 == 1)
            && (AskedFor(db, st, g, m) ==> r.0 == 2)
            && (OnByCase(db, st, m) ==> r.0 == 3)
            && (OnPlainly(db, st, m) ==> r.0 == 4)
            && (Plain(db, st, g, m) ==> r.0 == 5)
            && (!CanEnable(db, st, m) ==> r.0 == 6)
  {
    var d := DeclOf(db, m);
    assert YesByCase(st, d) <==> DefaultCaseOn(st, d.defaultCond);
    hide CanEnable, YesByCase, DefaultCaseOn;
  }

  lemma NotLowerIsAsGood(db: Db, st: State, g: Group, k: Key, m: Key)
    requires var asked := ChoiceOf(st, g).requested;
             !Lower(ChoiceRank(db, st, m, asked), ChoiceRank(db, st, k, asked))
    ensures AsGood(db, st, g, k, m)
  {
    hide ChoiceRank, CanEnable, Selected, AskedFor, OnByCase, OnPlainly;
    RankIs(db, st, g, k);
    RankIs(db, st, g, m);
  }

  /** After a choice has picked a default, the member it records is as good as any other
      member. If it recorded one before that is as good, it stays. */
  lemma PicksTheBest(db: Db, st: State, g: Group)
    requires Sound(db) && Shape(db, st)
    ensures var r := ChooseDefault(db, st, g);
            && (Enableable(db, st, g) ==> ChoiceOf(r, g).selected.Some?)
            && forall k, m :: ChoiceOf(r, g).selected == Some(k) && m in MembersOf(db, g) && CanEnable(db, st, m) ==>
                 CanEnable(db, st, k) && AsGood(db, st, g, k, m)
  {
    hide Sound, Shape, SetOn, AsGood, CanEnable, ChoiceRank, Lower, Best;
    var r := ChooseDefault(db, st, g);
    var b := Best(db, st, g);
    BestIsLeast(db, st, g);
    forall m | m in MembersOf(db, g) && CanEnable(db, st, m)
      ensures b.Some? && ChoiceOf(r, g).selected == b && CanEnable(db, st, b.value) && AsGood(db, st, g, b.value, m)
    {
      NotLowerIsAsGood(db, st, g, b.value, m);
      AsGoodCan(db, st, g, b.value, m);
      if b != ChoiceOf(st, g).selected {
        PickIsRecorded(db, st, g, b.value);
      }
    }
  }

  lemma AsGoodCan(db: Db, st: State, g: Group, k: Key, m: Key)
    requires AsGood(db, st, g, k, m) && CanEnable(db, st, m)
    ensures CanEnable(db, st, k)
  {
    hide CanEnable;
  }

  lemma PickIsRecorded(db: Db, st: State, g: Group, k: Key)
    requires Sound(db) && Shape(db, st) && k in MembersOf(db, g) && CanEnable(db, st, k)
    ensures ChoiceOf(SetOn(db, st, g, k, false), g).selected == Some(k)
  {
    hide *;
    SameChoice(db, g, k, k);
    BoolsAre();
    SetOnIs(db, st, g, k, false);
    FlaggedStep(db, st, k, B(true), false);
    FlaggedValues(db, st, k, B(true), false);
    var f := Flagged(db, st, k, B(true), false);
    SameValuesSight(db, st, f, k);
    NotBlockedOn(db, f, k);
    var p := Put(f, k, B(true));
    var q := Select(p, g, Some(k));
    PutStep(db, f, k, B(true));
    SelectStep(db, p, g, Some(k));
    SelectedIs(p, g, Some(k));
    UnsetOthersStep(db, q, g, k, MembersOf(db, g), false);
    ChoiceByMap(q, SetOn(db, st, g, k, false), g);
  }

  lemma NotBlockedOn(db: Db, st: State, k: Key)
    requires CanEnable(db, st, k)
    ensures !Blocked(db, st, k, B(true))
  {
    hide CanEnable;
  }

  /** The choice as the documentation describes it: nothing selected, set or recorded. */
  ghost predicate Fresh(db: Db, st: State, g: Group) {
    && ChoiceOf(st, g).selected.None?
    && forall m :: m in MembersOf(db, g) ==> OptOf(st, m).selectedBy == {} && !OptOf(st, m).userSet
  }

  /** If a member of it can be enabled, one that can goes on and all others are off: the
      first with a conditional default of y that applies, else the first with a plain default
      of y, else the first. */
  lemma FirstThatCan(db: Db, st: State, g: Group)
    requires Sound(db) && Shape(db, st) && Fresh(db, st, g) && Enableable(db, st, g)
    ensures var r := ChooseDefault(db, st, g);
            exists k :: k in MembersOf(db, g) && CanEnable(db, st, k) && ChoiceOf(r, g).selected == Some(k)
                   && (forall m :: m in MembersOf(db, g) ==> (On(r, m) <==> m == k))
                   && forall m :: m in MembersOf(db, g) && CanEnable(db, st, m) ==> ComesFirst(db, st, k, m)
  {
    hide Sound, Shape, ChooseDefault, AsGood, CanEnable;
    var r := ChooseDefault(db, st, g);
    PicksTheBest(db, st, g);
    var k := ChoiceOf(r, g).selected.value;
    FreshPick(db, st, g, k);
    forall m | m in MembersOf(db, g) && CanEnable(db, st, m)
      ensures CanEnable(db, st, k) && ComesFirst(db, st, k, m)
    {
      AsGoodComesFirst(db, st, g, k, m);
    }
    var m :| m in MembersOf(db, g) && CanEnable(db, st, m);
    assert CanEnable(db, st, k);
  }

  /** k has the better default of y, or the same and the lesser position. */
  predicate ComesFirst(db: Db, st: State, k: Key, m: Key) {
    var c, d := DeclOf(db, k), DeclOf(db, m);
    if YesByCase(st, c) != YesByCase(st, d) then YesByCase(st, c)
    else if !YesByCase(st, c) && YesPlainly(st, c) != YesPlainly(st, d) then YesPlainly(st, c)
    else c.position <= d.position
  }

  lemma AsGoodComesFirst(db: Db, st: State, g: Group, k: Key, m: Key)
    requires AsGood(db, st, g, k, m) && CanEnable(db, st, k) && CanEnable(db, st, m)
    requires OptOf(st, k).selectedBy == {} && !OptOf(st, k).userSet
    requires OptOf(st, m).selectedBy == {} && !OptOf(st, m).userSet
    ensures ComesFirst(db, st, k, m)
  {
    hide CanEnable, YesByCase, YesPlainly;
  }

  lemma FreshPick(db: Db, st: State, g: Group, k: Key)
    requires Sound(db) && Shape(db, st) && Fresh(db, st, g) && ChoiceOf(ChooseDefault(db, st, g), g).selected == Some(k)
    ensures k in MembersOf(db, g) && OptOf(st, k).selectedBy == {} && !OptOf(st, k).userSet
    ensures forall m :: m in MembersOf(db, g) ==> (On(ChooseDefault(db, st, g), m) <==> m == k)
  {
    hide *;
    FreshIs(db, st, g);
    BestIsLeast(db, st, g);
    var b := Best(db, st, g);
    PickUnfolds(db, st, g);
    var r := SetOn(db, st, g, b.value, false);
    SetOnIs(db, st, g, b.value, false);
    BoolsAre();
    SameChoice(db, g, b.value, b.value);
    FlaggedStep(db, st, b.value, B(true), false);
    var f := Flagged(db, st, b.value, B(true), false);
    FlaggedValues(db, st, b.value, B(true), false);
    if !Blocked(db, f, b.value, B(true)) {
      var p := Put(f, b.value, B(true));
      var q := Select(p, g, Some(b.value));
      PutStep(db, f, b.value, B(true));
      SelectStep(db, p, g, Some(b.value));
      SelectedIs(p, g, Some(b.value));
      PutElsewhere(f, b.value, B(true), b.value);
      OnValue(q, b.value);
      UnsetOthersStep(db, q, g, b.value, MembersOf(db, g), false);
      ChoiceByMap(q, r, g);
      AloneOn(db, st, q, r, g, b.value);
    }
  }

  lemma FreshIs(db: Db, st: State, g: Group)
    requires Fresh(db, st, g)
    ensures ChoiceOf(st, g).selected == None
    ensures forall m :: m in MembersOf(db, g) ==> OptOf(st, m).selectedBy == {} && !OptOf(st, m).userSet
  {
  }

  lemma PickUnfolds(db: Db, st: State, g: Group)
    ensures var b := Best(db, st, g);
            b.Some? && b != ChoiceOf(st, g).selected ==> ChooseDefault(db, st, g) == SetOn(db, st, g, b.value, false)
    ensures Best(db, st, g) == ChoiceOf(st, g).selected ==> ChooseDefault(db, st, g) == st
  {
    hide Best, SetOn;
  }

  /** With nothing selected no member keeps the pick from staying on. */
  lemma AloneOn(db: Db, st: State, q: State, r: State, g: Group, k: Key)
    requires k in MembersOf(db, g) && On(q, k) && forall m :: m in MembersOf(db, g) ==> OptOf(st, m).selectedBy == {}
    requires forall x :: OptOf(q, x).selectedBy == OptOf(st, x).selectedBy
    requires forall x :: OptOf(r, x).selectedBy == OptOf(q, x).selectedBy
    requires On(r, k) ==> forall m :: m in MembersOf(db, g) && m != k ==> !On(r, m)
    requires On(q, k) && !On(r, k) ==> ForcedOn(r, MembersOf(db, g), k)
    ensures forall m :: m in MembersOf(db, g) ==> (On(r, m) <==> m == k)
  {
    hide On;
  }
}
