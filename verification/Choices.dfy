/** What one assignment does at its own level: to the option itself and, inside a choice
    group, to the other members. Levels come from a rank of the options. */
module Choices {
  import opened Wrappers
  import opened Options

  predicate SameGroup(db: Db, a: Key, b: Key) {
    DeclOf(db, a).group.Some? && DeclOf(db, a).group == DeclOf(db, b).group
  }

  /*** The steps of an assignment ***/

  function WithOpt(st: State, k: Key, o: Opt): State {
    st.(opts := st.opts[k := o])
  }

  function WithChoice(st: State, g: Group, c: Choice): State {
    st.(choices := st.choices[g := c])
  }

  function Put(st: State, k: Key, v: Value): State {
    WithOpt(st, k, OptOf(st, k).(value := v))
  }

  function Select(st: State, g: Group, k: Option<Key>): State {
    WithChoice(st, g, ChoiceOf(st, g).(selected := k))
  }

  /** Whether the interface takes the value at all: a bool option also takes 0 and 1. */
  predicate Accepts(db: Db, k: Key, v: Value) {
    match DeclOf(db, k).datatype_
    case BoolType => v.B? || v == I(0) || v == I(1)
    case IntType => v.I?
    case StringType => true
  }

  /** A user's wish is recorded even where it cannot be met: for a choice as the member
      asked for, for any other option as the value. */
  function Flagged(db: Db, st: State, k: Key, v: Value, user: bool): State {
    var o := OptOf(st, k).(userSet := OptOf(st, k).userSet || user);
    if !user then WithOpt(st, k, o)
    else
      match DeclOf(db, k).group
      case None => WithOpt(st, k, o.(requested := Some(v)))
      case Some(g) =>
        if v == B(true) then WithChoice(WithOpt(st, k, o), g, ChoiceOf(st, g).(requested := Some(k)))
        else WithOpt(st, k, o)
  }

  /** A selected option cannot go off; one whose dependencies fail cannot go on, unless
      it is selected. */
  predicate Blocked(db: Db, st: State, k: Key, v: Value) {
    && DeclOf(db, k).datatype_ == BoolType
    && if OptOf(st, k).selectedBy != {} then v == B(false) else v == B(true) && !CanEnable(db, st, k)
  }

  /** Turning a member off while another member is on. */
  function UnsetOne(db: Db, st: State, k: Key, user: bool): State {
    if !Accepts(db, k, B(false)) then st
    else
      var s := Flagged(db, st, k, B(false), user);
      if Blocked(db, s, k, B(false)) then s else Put(s, k, B(false))
  }

  /** Turning off the members of ms other than key; key gives way to one that stays on. */
  function UnsetOthers(db: Db, st: State, key: Key, ms: seq<Key>, user: bool): State
    decreases |ms|
  {
    if ms == [] then st
    else if ms[0] == key then UnsetOthers(db, st, key, ms[1..], user)
    else
      var s := UnsetOne(db, st, ms[0], user);
      if On(s, ms[0]) then Put(s, key, B(false)) else UnsetOthers(db, s, key, ms[1..], user)
  }

  function SetOn(db: Db, st: State, g: Group, key: Key, user: bool): State {
    var s := Flagged(db, st, key, B(true), user);
    if Blocked(db, s, key, B(true)) then s
    else UnsetOthers(db, Select(Put(s, key, B(true)), g, Some(key)), key, MembersOf(db, g), user)
  }

  predicate OtherOn(st: State, ms: seq<Key>, key: Key) {
    exists m :: m in ms && m != key && On(st, m)
  }

  /*** The best default of a choice ***/

  predicate Lower(a: (int, int), b: (int, int)) {
    a.0 < b.0 || (a.0 == b.0 && a.1 < b.1)
  }

  predicate DefaultCaseOn(st: State, cases: seq<(Cond, Expr)>) {
    exists i :: 0 <= i < |cases| && Holds(st, cases[i].0) && ExprResult(st, cases[i].1) == B(true)
  }

  /** How good a default the member is, lower being better: it can be enabled at all; it is
      selected, asked for by the user, or its own default says so. Ties go by position. */
  function ChoiceRank(db: Db, st: State, k: Key, asked: Option<Key>): (int, int) {
    var d, o := DeclOf(db, k), OptOf(st, k);
    var base := if o.selectedBy != {} then 1 else 5;
    if !CanEnable(db, st, k) then (6, d.position)
    else if o.userSet then (if asked == Some(k) then 2 else base, d.position)
    else if DefaultCaseOn(st, d.defaultCond) then (3, d.position)
    else if d.default.Some? && ExprResult(st, d.default.value) == B(true) then (4, d.position)
    else (base, d.position)
  }

  function BestFrom(db: Db, st: State, asked: Option<Key>, ms: seq<Key>, sel: Option<Key>,
                    rank: (int, int)): Option<Key> {
    if ms == [] then sel
    else
      var r := ChoiceRank(db, st, ms[0], asked);
      if sel != Some(ms[0]) && Lower(r, rank) then BestFrom(db, st, asked, ms[1..], Some(ms[0]), r)
      else BestFrom(db, st, asked, ms[1..], sel, rank)
  }

  function StartRank(db: Db, st: State, g: Group): (int, int) {
    match ChoiceOf(st, g).selected
    case None => (100, 0)
    case Some(k) => ChoiceRank(db, st, k, ChoiceOf(st, g).requested)
  }

  /** The current selection, unless a member ranks lower; then the lowest of these. */
  function Best(db: Db, st: State, g: Group): Option<Key> {
    BestFrom(db, st, ChoiceOf(st, g).requested, MembersOf(db, g), ChoiceOf(st, g).selected, StartRank(db, st, g))
  }

  lemma {:induction false} BestFromIsLeast(db: Db, st: State, asked: Option<Key>, ms: seq<Key>, sel: Option<Key>,
                                           rank: (int, int))
    requires sel.Some? ==> rank == ChoiceRank(db, st, sel.value, asked)
    requires sel.None? ==> rank == (100, 0)
    ensures var r := BestFrom(db, st, asked, ms, sel, rank);
            && (r == sel || (r.Some? && r.value in ms && Lower(ChoiceRank(db, st, r.value, asked), rank)))
            && (r.Some? ==> forall m :: m in ms ==>
                !Lower(ChoiceRank(db, st, m, asked), ChoiceRank(db, st, r.value, asked)))
            && (r.None? ==> ms == [])
  {
    if ms != [] {
      var r := ChoiceRank(db, st, ms[0], asked);
      if sel != Some(ms[0]) && Lower(r, rank) {
        BestFromIsLeast(db, st, asked, ms[1..], Some(ms[0]), r);
      } else {
        BestFromIsLeast(db, st, asked, ms[1..], sel, rank);
        assert sel.None? ==> Lower(r, rank);
      }
    }
  }

  /** The default picked for a choice: no member ranks lower, and the selection moves only
      to a member that ranks strictly lower. */
  lemma BestIsLeast(db: Db, st: State, g: Group)
    ensures var r, asked := Best(db, st, g), ChoiceOf(st, g).requested;
            && (r.Some? ==> forall m :: m in MembersOf(db, g) ==>
                              !Lower(ChoiceRank(db, st, m, asked), ChoiceRank(db, st, r.value, asked)))
            && (r != ChoiceOf(st, g).selected ==>
                  r.Some? && r.value in MembersOf(db, g) &&
                    Lower(ChoiceRank(db, st, r.value, asked), StartRank(db, st, g)))
            && (r.None? ==> MembersOf(db, g) == [])
  {
    BestFromIsLeast(db, st, ChoiceOf(st, g).requested, MembersOf(db, g), ChoiceOf(st, g).selected,
                    StartRank(db, st, g));
  }

  function ChooseDefault(db: Db, st: State, g: Group): State {
    match Best(db, st, g)
    case None => st
    case Some(k) => if Some(k) == ChoiceOf(st, g).selected then st else SetOn(db, st, g, k, false)
  }

  /** A whole assignment at its own level. */
  function SetOwn(db: Db, st: State, k: Key, v: Value, user: bool): State {
    if k !in db.decls || !Accepts(db, k, v) then st
    else
      var s := Flagged(db, st, k, v, user);
      if Blocked(db, s, k, v) then s
      else
        match DeclOf(db, k).group
        case None => Put(s, k, v)
        case Some(g) =>
          if v == B(true) then SetOn(db, st, g, k, user)
          else if OtherOn(s, MembersOf(db, g), k) then Put(s, k, v)
          else if CanEnable(db, Put(s, k, v), k) then Put(Select(Put(s, k, v), g, Some(k)), k, B(true))
          else ChooseDefault(db, Select(Put(s, k, v), g, None), g)
  }

  /*** The option database ***/

  ghost predicate Sound(db: Db) {
    && (forall k :: k in db.decls ==> SoundDecl(db, db.decls[k]))
    && (forall k :: k in db.decls && db.decls[k].group.Some? ==> k in MembersOf(db, db.decls[k].group.value))
    && (forall g, k :: k in MembersOf(db, g) ==> k in db.decls && db.decls[k].group == Some(g))
    && (forall g :: NoDup(MembersOf(db, g)))
    && NoDup(db.order) && (forall k :: k in db.order <==> k in db.decls)
  }

  /** Defaults have the option's type, only bools select and are selected, and choices are
      between bools. */
  ghost predicate SoundDecl(db: Db, d: Decl) {
    && DefaultsTyped(db, d)
    && (d.select != [] || d.selectIf != [] ==> d.datatype_ == BoolType)
    && (forall t :: t in Targets(d) && t in db.decls ==> db.decls[t].datatype_ == BoolType)
    && (d.group.Some? ==> d.datatype_ == BoolType)
  }

  /** The options that d selects, with or without a condition. */
  ghost function Targets(d: Decl): set<Key> {
    (set k | k in d.select) + IfTargets(d)
  }

  ghost function IfTargets(d: Decl): set<Key> {
    set i | 0 <= i < |d.selectIf| :: d.selectIf[i].0
  }

  /** The options named in the conditions of its conditional selects. */
  ghost function IfKeys(d: Decl): set<Key> {
    set i, k | 0 <= i < |d.selectIf| && k in CondKeys(d.selectIf[i].1) :: k
  }

  /** Some option selects k, with or without a condition. */
  ghost predicate Selectable(db: Db, k: Key) {
    exists s :: s in db.decls && k in Targets(db.decls[s])
  }

  /** Another member of the option's choice can be selected, and then stays on whatever the
      option is told. */
  ghost predicate Rivalled(db: Db, k: Key) {
    exists m :: Selectable(db, m) && m != k && SameGroup(db, m, k)
  }

  type Ranks = map<Key, nat>

  function RankOf(rank: Ranks, k: Key): nat {
    if k in rank then rank[k] else 0
  }

  /** An acyclic database: an option ranks above everything its dependencies and defaults
      name, above what selects it, and above what the conditions for that name. The members
      of a choice share a rank, and otherwise ranks differ. */
  ghost predicate Ranked(db: Db, rank: Ranks) {
    && rank.Keys == db.decls.Keys
    && (forall a, b :: a in db.decls && b in db.decls ==>
          (RankOf(rank, a) == RankOf(rank, b) <==> a == b || SameGroup(db, a, b)))
    && (forall k, i :: k in db.decls && i in DependsKeys(db, k) + DefaultKeys(db, k) ==>
          i in db.decls && RankOf(rank, i) < RankOf(rank, k))
    && (forall s, k :: s in db.decls && k in Targets(db.decls[s]) && k in db.decls ==>
          RankOf(rank, s) < RankOf(rank, k))
    && (forall s, i, k :: s in db.decls && i in IfKeys(db.decls[s]) && k in IfTargets(db.decls[s]) && k in db.decls ==>
          i in db.decls && RankOf(rank, i) < RankOf(rank, k))
  }

  /*** Levels of a state ***/

  /** a and b have the same options and choices below level n. */
  ghost predicate Same(db: Db, rank: Ranks, a: State, b: State, n: int) {
    forall k :: k in db.decls && RankOf(rank, k) < n ==> SameAt(db, a, b, k)
  }

  ghost predicate SameAt(db: Db, a: State, b: State, k: Key) {
    && OptOf(a, k) == OptOf(b, k)
    && forall g :: DeclOf(db, k).group == Some(g) ==> ChoiceOf(a, g) == ChoiceOf(b, g)
  }

  /** b differs from a in k and the members of its choice at most. */
  ghost predicate OnlyLevel(db: Db, a: State, b: State, k: Key) {
    && (forall x :: x != k && !SameGroup(db, x, k) ==> OptOf(a, x) == OptOf(b, x))
    && (forall g :: DeclOf(db, k).group != Some(g) ==> ChoiceOf(a, g) == ChoiceOf(b, g))
  }

  /** What every assignment keeps. The requested value of an ungrouped option is of its
      type and goes with the user flag. */
  ghost predicate Shape(db: Db, st: State) {
    && st.opts.Keys == db.decls.Keys && st.choices.Keys == db.members.Keys
    && (forall k :: ShapeAt(db, k, OptOf(st, k)))
    && (forall g :: ShapeOfChoice(db, st, g, ChoiceOf(st, g)))
  }

  /** A choice records members, and as asked for one that the user set. */
  ghost predicate ShapeOfChoice(db: Db, st: State, g: Group, c: Choice) {
    && (c.selected.Some? ==> c.selected.value in MembersOf(db, g))
    && (c.requested.Some? ==> c.requested.value in MembersOf(db, g) && OptOf(st, c.requested.value).userSet)
  }

  ghost predicate ShapeAt(db: Db, k: Key, o: Opt) {
    && HasType(o.value, DeclOf(db, k).datatype_)
    && (o.requested.Some? ==> o.userSet && HasType(o.requested.value, DeclOf(db, k).datatype_))
    && (o.userSet && DeclOf(db, k).group.None? ==> o.requested.Some?)
    && (o.requested.Some? ==> DeclOf(db, k).group.None?)
    && (forall s :: s in o.selectedBy ==> s in db.decls && k in Targets(db.decls[s]))
  }

  ghost predicate AtMostOneOn(db: Db, st: State, g: Group) {
    forall a, b :: a in MembersOf(db, g) && b in MembersOf(db, g) && On(st, a) && On(st, b) ==> a == b
  }

  /** The choice is exclusive, and if it records k as its selection then k is on. */
  ghost predicate Grips(db: Db, st: State, g: Group, k: Key) {
    AtMostOneOn(db, st, g) && (ChoiceOf(st, g).selected == Some(k) ==> On(st, k))
  }

  /** From a to b a member without rivals stays on while it is selected, and stays gripped. */
  ghost predicate Firm(db: Db, a: State, b: State, g: Group) {
    forall k :: k in MembersOf(db, g) && !Rivalled(db, k) ==>
      && (On(a, k) && OptOf(a, k).selectedBy != {} ==> On(b, k))
      && (Grips(db, a, g, k) ==> Grips(db, b, g, k))
  }

  predicate SomeOn(db: Db, st: State, g: Group) {
    exists m :: m in MembersOf(db, g) && On(st, m)
  }

  predicate Enableable(db: Db, st: State, g: Group) {
    exists m :: m in MembersOf(db, g) && CanEnable(db, st, m)
  }

  /** The choice has a member on, or it cannot have one and records none. */
  predicate Full(db: Db, st: State, g: Group) {
    SomeOn(db, st, g) || (ChoiceOf(st, g).selected.None? && !Enableable(db, st, g))
  }

  /** Of a to b: the choice is full, or it is as it was. */
  ghost predicate FullOrSame(db: Db, a: State, b: State, g: Group) {
    || Full(db, b, g)
    || (ChoiceOf(a, g).selected == ChoiceOf(b, g).selected && forall x :: ValueOf(a, x) == ValueOf(b, x))
  }

  lemma ShapeIsTyped(db: Db, st: State)
    requires Shape(db, st)
    ensures Typed(db, st)
  {
    forall k
      ensures HasType(ValueOf(st, k), DeclOf(db, k).datatype_)
    {
      assert ShapeAt(db, k, OptOf(st, k));
    }
  }

  /*** The steps stay on their level and keep the shape ***/

  lemma WithOptStep(db: Db, st: State, k: Key, o: Opt)
    requires Shape(db, st) && k in db.decls && ShapeAt(db, k, o) && (OptOf(st, k).userSet ==> o.userSet)
    ensures Shape(db, WithOpt(st, k, o))
    ensures forall x :: OptOf(WithOpt(st, k, o), x) == if x == k then o else OptOf(st, x)
    ensures WithOpt(st, k, o).choices == st.choices
  {
    var s := WithOpt(st, k, o);
    forall x
      ensures ShapeAt(db, x, OptOf(s, x))
    {
      assert ShapeAt(db, x, OptOf(st, x));
    }
    forall g
      ensures ShapeOfChoice(db, s, g, ChoiceOf(s, g))
    {
      assert ShapeOfChoice(db, st, g, ChoiceOf(st, g));
    }
  }

  lemma WithChoiceStep(db: Db, st: State, g: Group, c: Choice)
    requires Shape(db, st) && g in db.members && ShapeOfChoice(db, st, g, c)
    ensures Shape(db, WithChoice(st, g, c)) && WithChoice(st, g, c).opts == st.opts
    ensures forall h :: ChoiceOf(WithChoice(st, g, c), h) == if h == g then c else ChoiceOf(st, h)
    ensures forall x :: OptOf(WithChoice(st, g, c), x) == OptOf(st, x)
  {
    var s := WithChoice(st, g, c);
    forall x
      ensures ShapeAt(db, x, OptOf(s, x))
    {
      assert ShapeAt(db, x, OptOf(st, x));
    }
    forall h
      ensures ShapeOfChoice(db, s, h, ChoiceOf(s, h))
    {
      assert ShapeOfChoice(db, st, h, ChoiceOf(st, h));
    }
  }

  lemma GroupIsKnown(db: Db, k: Key)
    requires Sound(db) && k in db.decls && DeclOf(db, k).group.Some?
    ensures DeclOf(db, k).group.value in db.members && k in MembersOf(db, DeclOf(db, k).group.value)
  {
  }

  lemma ShapeOf(db: Db, st: State, k: Key)
    requires Shape(db, st)
    ensures ShapeAt(db, k, OptOf(st, k))
  {
  }

  lemma ChoiceShape(db: Db, st: State, g: Group)
    requires Shape(db, st)
    ensures ShapeOfChoice(db, st, g, ChoiceOf(st, g))
  {
  }

  /** Only what some option selects has selectors. */
  lemma SelectorsAre(db: Db, st: State, k: Key)
    requires Shape(db, st) && OptOf(st, k).selectedBy != {}
    ensures Selectable(db, k)
  {
    hide Targets;
    var s :| s in OptOf(st, k).selectedBy;
    ShapeOf(db, st, k);
  }

  lemma FlaggedStep(db: Db, st: State, k: Key, v: Value, user: bool)
    requires Sound(db) && Shape(db, st) && k in db.decls && HasType(v, DeclOf(db, k).datatype_)
    ensures var s := Flagged(db, st, k, v, user);
            && Shape(db, s) && OnlyLevel(db, st, s, k)
            && (forall x :: x != k ==> OptOf(s, x) == OptOf(st, x))
            && ValueOf(s, k) == ValueOf(st, k) && OptOf(s, k).selectedBy == OptOf(st, k).selectedBy
            && OptOf(s, k).userSet == (OptOf(st, k).userSet || user)
            && (forall g :: ChoiceOf(s, g).selected == ChoiceOf(st, g).selected)
  {
    hide Sound, Shape, WithOpt, WithChoice, OptOf;
    ShapeOf(db, st, k);
    if DeclOf(db, k).group.Some? {
      GroupIsKnown(db, k);
    }
    var g := DeclOf(db, k).group;
    var o := OptOf(st, k).(userSet := OptOf(st, k).userSet || user);
    if user && g.None? {
      WithOptStep(db, st, k, o.(requested := Some(v)));
    } else {
      WithOptStep(db, st, k, o);
      if user && v == B(true) {
        ChoiceShape(db, st, g.value);
        WithChoiceStep(db, WithOpt(st, k, o), g.value, ChoiceOf(st, g.value).(requested := Some(k)));
      }
    }
  }

  lemma PutStep(db: Db, st: State, k: Key, v: Value)
    requires Shape(db, st) && k in db.decls && HasType(v, DeclOf(db, k).datatype_)
    ensures Shape(db, Put(st, k, v)) && OnlyLevel(db, st, Put(st, k, v), k)
    ensures forall x :: OptOf(Put(st, k, v), x) == if x == k then OptOf(st, k).(value := v) else OptOf(st, x)
  {
    assert ShapeAt(db, k, OptOf(st, k));
    WithOptStep(db, st, k, OptOf(st, k).(value := v));
  }

  lemma SelectStep(db: Db, st: State, g: Group, k: Option<Key>)
    requires Shape(db, st) && g in db.members && (k.Some? ==> k.value in MembersOf(db, g))
    ensures Shape(db, Select(st, g, k))
    ensures forall x :: OptOf(Select(st, g, k), x) == OptOf(st, x)
    ensures forall h :: h != g ==> ChoiceOf(Select(st, g, k), h) == ChoiceOf(st, h)
  {
    ChoiceShape(db, st, g);
    WithChoiceStep(db, st, g, ChoiceOf(st, g).(selected := k));
  }

  lemma OnlyLevelStart(db: Db, st: State, k: Key)
    ensures OnlyLevel(db, st, st, k)
  {
  }

  lemma OnlyLevelOn(db: Db, a: State, b: State, c: State, k: Key)
    requires OnlyLevel(db, a, b, k) && OnlyLevel(db, b, c, k)
    ensures OnlyLevel(db, a, c, k)
  {
  }

  lemma OnlyLevelOf(db: Db, a: State, b: State, k: Key, m: Key)
    requires OnlyLevel(db, a, b, m) && SameGroup(db, k, m)
    ensures OnlyLevel(db, a, b, k)
  {
  }

  lemma UnsetOneStep(db: Db, st: State, k: Key, user: bool)
    requires Sound(db) && Shape(db, st) && k in db.decls && DeclOf(db, k).datatype_ == BoolType
    ensures var s := UnsetOne(db, st, k, user);
            && Shape(db, s) && OnlyLevel(db, st, s, k)
            && (forall x :: x != k ==> OptOf(s, x) == OptOf(st, x))
            && OptOf(s, k).selectedBy == OptOf(st, k).selectedBy
            && OptOf(s, k).userSet == (OptOf(st, k).userSet || user)
            && ValueOf(s, k) == (if OptOf(st, k).selectedBy == {} then B(false) else ValueOf(st, k))
            && s.choices == st.choices
  {
    hide Sound, Shape, OnlyLevel, CanEnable;
    FlaggedStep(db, st, k, B(false), user);
    var s := Flagged(db, st, k, B(false), user);
    if !Blocked(db, s, k, B(false)) {
      PutStep(db, s, k, B(false));
      OnlyLevelOn(db, st, s, Put(s, k, B(false)), k);
    }
  }

  /** A selected member other than key is on. */
  ghost predicate ForcedOn(st: State, ms: seq<Key>, key: Key) {
    exists m :: m in ms && m != key && On(st, m) && OptOf(st, m).selectedBy != {}
  }

  lemma {:induction false} UnsetOthersStep(db: Db, st: State, g: Group, key: Key, ms: seq<Key>, user: bool)
    requires Sound(db) && Shape(db, st) && key in MembersOf(db, g)
    requires forall m :: m in ms ==> m in MembersOf(db, g)
    ensures var s := UnsetOthers(db, st, key, ms, user);
            && Shape(db, s) && OnlyLevel(db, st, s, key)
            && (forall x :: On(s, x) ==> On(st, x))
            && (forall x :: OptOf(s, x).selectedBy == OptOf(st, x).selectedBy)
            && (On(s, key) ==> forall m :: m in ms && m != key ==> !On(s, m))
            && (On(st, key) && !On(s, key) ==> ForcedOn(s, ms, key))
            && s.choices == st.choices
            && (!user ==> forall x :: OptOf(s, x).userSet == OptOf(st, x).userSet)
    decreases |ms|
  {
    hide Sound, Shape, OnlyLevel, UnsetOne, SameGroup;
    OnlyLevelStart(db, st, key);
    if ms != [] {
      assert ms[0] in ms;
      SameChoice(db, g, key, ms[0]);
      SameChoice(db, g, key, key);
      if ms[0] == key {
        UnsetOthersStep(db, st, g, key, ms[1..], user);
      } else {
        var s := UnsetOne(db, st, ms[0], user);
        UnsetOneStep(db, st, ms[0], user);
        OnlyLevelOf(db, st, s, key, ms[0]);
        if On(s, ms[0]) {
          PutStep(db, s, key, B(false));
          OnlyLevelOn(db, st, s, Put(s, key, B(false)), key);
        } else {
          UnsetOthersStep(db, s, g, key, ms[1..], user);
          OnlyLevelOn(db, st, s, UnsetOthers(db, s, key, ms[1..], user), key);
        }
      }
    }
  }

  /** A selected member other than key that is on stays on. */
  lemma {:induction false} UnsetOthersHolds(db: Db, st: State, key: Key, ms: seq<Key>, user: bool, x: Key)
    requires x != key && On(st, x) && OptOf(st, x).selectedBy != {} && DeclOf(db, x).datatype_ == BoolType
    ensures On(UnsetOthers(db, st, key, ms, user), x)
    decreases |ms|
  {
    hide UnsetOne, Put;
    if ms != [] {
      if ms[0] == key {
        UnsetOthersHolds(db, st, key, ms[1..], user, x);
      } else {
        var s := UnsetOne(db, st, ms[0], user);
        UnsetOneHolds(db, st, ms[0], user, x);
        PutElsewhere(s, key, B(false), x);
        if !On(s, ms[0]) {
          UnsetOthersHolds(db, s, key, ms[1..], user, x);
        }
      }
    }
  }

  lemma UnsetOneHolds(db: Db, st: State, k: Key, user: bool, x: Key)
    requires On(st, x) && OptOf(st, x).selectedBy != {} && DeclOf(db, x).datatype_ == BoolType
    ensures var s := UnsetOne(db, st, k, user); On(s, x) && OptOf(s, x).selectedBy != {}
  {
    hide CanEnable;
  }

  lemma PutElsewhere(st: State, k: Key, v: Value, x: Key)
    ensures x != k ==> OptOf(Put(st, k, v), x) == OptOf(st, x) && (On(Put(st, k, v), x) <==> On(st, x))
    ensures ValueOf(Put(st, k, v), k) == v && Put(st, k, v).choices == st.choices
  {
  }

  lemma SameChoice(db: Db, g: Group, a: Key, b: Key)
    requires Sound(db) && a in MembersOf(db, g) && b in MembersOf(db, g)
    ensures SameGroup(db, a, b) && b in db.decls && DeclOf(db, b).group == Some(g) &&
            DeclOf(db, b).datatype_ == BoolType
    ensures g in db.members
  {
    assert SoundDecl(db, db.decls[b]);
  }

  /*** Choices stay exclusive ***/

  /** Turning a member on leaves at most one member on. It is this member unless a selected
      one stays on. */
  lemma SetOnStep(db: Db, st: State, g: Group, key: Key, user: bool)
    requires Sound(db) && Shape(db, st) && key in MembersOf(db, g)
    ensures var s := SetOn(db, st, g, key, user);
            && Shape(db, s) && OnlyLevel(db, st, s, key)
            && (forall x :: OptOf(s, x).selectedBy == OptOf(st, x).selectedBy)
            && (forall x :: x != key && On(s, x) ==> On(st, x))
            && (AtMostOneOn(db, st, g) ==> AtMostOneOn(db, s, g))
            && (!user ==> forall x :: OptOf(s, x).userSet == OptOf(st, x).userSet)
            && (|| On(s, key) || ForcedOn(s, MembersOf(db, g), key)
                || (s == Flagged(db, st, key, B(true), user) && Blocked(db, s, key, B(true))))
  {
    hide Sound, Shape, OnlyLevel, Accepts;
    SameChoice(db, g, key, key);
    FlaggedStep(db, st, key, B(true), user);
    var s := Flagged(db, st, key, B(true), user);
    if !Blocked(db, s, key, B(true)) {
      PutStep(db, s, key, B(true));
      var p := Put(s, key, B(true));
      SelectStep(db, p, g, Some(key));
      var q := Select(p, g, Some(key));
      SelectIsOnLevel(db, p, g, key, Some(key));
      UnsetOthersStep(db, q, g, key, MembersOf(db, g), user);
      var r := UnsetOthers(db, q, key, MembersOf(db, g), user);
      OnlyLevelOn(db, st, s, p, key);
      OnlyLevelOn(db, st, p, q, key);
      OnlyLevelOn(db, st, q, r, key);
    }
  }

  /** What keeps a member from going on is a rival. */
  lemma ForcedIsRival(db: Db, st: State, g: Group, k: Key)
    requires Sound(db) && Shape(db, st) && k in MembersOf(db, g) && ForcedOn(st, MembersOf(db, g), k)
    ensures Rivalled(db, k)
  {
    hide Sound, Shape, Selectable;
    var m :| m in MembersOf(db, g) && m != k && On(st, m) && OptOf(st, m).selectedBy != {};
    SelectorsAre(db, st, m);
    SameChoice(db, g, m, k);
  }

  lemma SameIsFirm(db: Db, a: State, b: State, g: Group)
    requires (forall x :: ValueOf(a, x) == ValueOf(b, x)) && ChoiceOf(a, g).selected == ChoiceOf(b, g).selected
    ensures Firm(db, a, b, g)
  {
    hide Rivalled;
  }

  lemma FirmOn(db: Db, a: State, b: State, c: State, g: Group)
    requires Firm(db, a, b, g) && Firm(db, b, c, g) && forall x :: OptOf(b, x).selectedBy == OptOf(a, x).selectedBy
    ensures Firm(db, a, c, g)
  {
    hide Rivalled, Grips;
  }

  lemma SelectedIs(st: State, g: Group, k: Option<Key>)
    ensures ChoiceOf(Select(st, g, k), g) == ChoiceOf(st, g).(selected := k)
    ensures forall x :: OptOf(Select(st, g, k), x) == OptOf(st, x)
  {
  }

  lemma SetOnIs(db: Db, st: State, g: Group, key: Key, user: bool)
    ensures var f := Flagged(db, st, key, B(true), user);
            SetOn(db, st, g, key, user) ==
            if Blocked(db, f, key, B(true)) then f
            else UnsetOthers(db, Select(Put(f, key, B(true)), g, Some(key)), key, MembersOf(db, g), user)
  {
    hide Flagged, Blocked, UnsetOthers, Select, Put;
  }

  /** A member without rivals that is turned on, and not blocked, is on. */
  lemma SetOnFirm(db: Db, st: State, g: Group, key: Key, user: bool)
    requires Sound(db) && Shape(db, st) && key in MembersOf(db, g)
    ensures Firm(db, st, SetOn(db, st, g, key, user), g)
    ensures var f := Flagged(db, st, key, B(true), user);
            !Blocked(db, f, key, B(true)) && !Rivalled(db, key) ==> On(SetOn(db, st, g, key, user), key)
    ensures ChoiceOf(SetOn(db, st, g, key, user), g).requested ==
            ChoiceOf(Flagged(db, st, key, B(true), user), g).requested
  {
    hide *;
    var f := Flagged(db, st, key, B(true), user);
    var r := SetOn(db, st, g, key, user);
    SameChoice(db, g, key, key);
    BoolsAre();
    SetOnIs(db, st, g, key, user);
    SetOnStep(db, st, g, key, user);
    FlaggedStep(db, st, key, B(true), user);
    FlaggedValues(db, st, key, B(true), user);
    if Blocked(db, f, key, B(true)) {
      SameIsFirm(db, st, f, g);
    } else {
      var p := Put(f, key, B(true));
      var q := Select(p, g, Some(key));
      PutStep(db, f, key, B(true));
      SelectStep(db, p, g, Some(key));
      SelectedIs(p, g, Some(key));
      PutElsewhere(f, key, B(true), key);
      UnsetOthersStep(db, q, g, key, MembersOf(db, g), user);
      if !Rivalled(db, key) && !On(r, key) {
        OnValue(q, key);
        ForcedIsRival(db, r, g, key);
      }
      forall x | x in MembersOf(db, g) && x != key && On(st, x) && OptOf(st, x).selectedBy != {}
        ensures On(r, x)
      {
        PutElsewhere(f, key, B(true), x);
        SameChoice(db, g, x, x);
        OnValue(st, x);
        OnValue(q, x);
        UnsetOthersHolds(db, q, key, MembersOf(db, g), user, x);
      }
      ChoiceByMap(q, r, g);
      ChoiceByMap(f, p, g);
      PickedIsFirm(db, st, r, g, key);
    }
  }

  lemma ChoiceByMap(a: State, b: State, g: Group)
    requires a.choices == b.choices
    ensures ChoiceOf(a, g) == ChoiceOf(b, g)
  {
  }

  lemma OnValue(st: State, k: Key)
    ensures On(st, k) <==> OptOf(st, k).value == B(true)
    ensures On(st, k) <==> ValueOf(st, k) == B(true)
  {
  }

  lemma BoolsAre()
    ensures forall b :: HasType(B(b), BoolType)
  {
  }

  lemma FlaggedValues(db: Db, st: State, k: Key, v: Value, user: bool)
    ensures forall x :: ValueOf(Flagged(db, st, k, v, user), x) == ValueOf(st, x)
    ensures forall x :: OptOf(Flagged(db, st, k, v, user), x).selectedBy == OptOf(st, x).selectedBy
  {
  }

  lemma PickedIsFirm(db: Db, a: State, b: State, g: Group, key: Key)
    requires AtMostOneOn(db, a, g) ==> AtMostOneOn(db, b, g)
    requires ChoiceOf(b, g).selected == Some(key) && (!Rivalled(db, key) ==> On(b, key))
    requires forall x :: x in MembersOf(db, g) && x != key && On(a, x) && OptOf(a, x).selectedBy != {} ==> On(b, x)
    ensures Firm(db, a, b, g)
  {
    hide Rivalled, AtMostOneOn;
  }

  lemma ChooseDefaultFirm(db: Db, st: State, g: Group)
    requires Sound(db) && Shape(db, st)
    ensures Firm(db, st, ChooseDefault(db, st, g), g)
    ensures ChoiceOf(ChooseDefault(db, st, g), g).requested == ChoiceOf(st, g).requested
  {
    hide Sound, Shape, Best, SetOn, Firm, MembersOf;
    BestIsLeast(db, st, g);
    SameIsFirm(db, st, st, g);
    var b := Best(db, st, g);
    if b.Some? && b != ChoiceOf(st, g).selected {
      SetOnFirm(db, st, g, b.value, false);
      FlaggedQuietly(db, st, b.value, B(true));
    }
  }

  lemma RankOfAsked(db: Db, st: State, k: Key)
    requires CanEnable(db, st, k) && OptOf(st, k).userSet
    ensures ChoiceRank(db, st, k, Some(k)).0 == 2
  {
  }

  lemma RankOfOther(db: Db, st: State, k: Key, asked: Option<Key>)
    requires asked != Some(k) && OptOf(st, k).selectedBy == {}
    ensures ChoiceRank(db, st, k, asked).0 >= 3
  {
    hide CanEnable, DefaultCaseOn, ExprResult;
  }

  /** The member asked for is the best default as soon as it can be enabled, unless some
      other member is selected. */
  lemma AskedIsBest(db: Db, st: State, g: Group, k: Key)
    requires Sound(db) && Shape(db, st) && k in MembersOf(db, g) && !Rivalled(db, k)
    requires ChoiceOf(st, g).requested == Some(k) && CanEnable(db, st, k)
    ensures Best(db, st, g) == Some(k)
  {
    hide Sound, Shape, Best, ChoiceRank, CanEnable, Selectable;
    BestIsLeast(db, st, g);
    ChoiceShape(db, st, g);
    var b := Best(db, st, g).value;
    RankOfAsked(db, st, k);
    if b != k {
      if OptOf(st, b).selectedBy != {} {
        SelectorsAre(db, st, b);
        SameChoice(db, g, b, k);
      }
      RankOfOther(db, st, b, Some(k));
    }
  }

  lemma AskedComesOn(db: Db, st: State, g: Group, k: Key)
    requires Sound(db) && Shape(db, st) && k in MembersOf(db, g) && !Rivalled(db, k) && Grips(db, st, g, k)
    requires ChoiceOf(st, g).requested == Some(k) && CanEnable(db, st, k)
    ensures On(ChooseDefault(db, st, g), k)
  {
    hide Sound, Shape, Best, SetOn, Firm, CanEnable, Rivalled, Flagged;
    AskedIsBest(db, st, g, k);
    if ChoiceOf(st, g).selected != Some(k) {
      SetOnFirm(db, st, g, k, false);
      FlaggedValues(db, st, k, B(true), false);
      SameValuesSight(db, st, Flagged(db, st, k, B(true), false), k);
    }
  }

  lemma FlaggedQuietly(db: Db, st: State, k: Key, v: Value)
    ensures forall g :: ChoiceOf(Flagged(db, st, k, v, false), g) == ChoiceOf(st, g)
  {
  }

  lemma SelectIsOnLevel(db: Db, st: State, g: Group, key: Key, sel: Option<Key>)
    requires Shape(db, st) && g in db.members && DeclOf(db, key).group == Some(g)
    requires sel.Some? ==> sel.value in MembersOf(db, g)
    ensures OnlyLevel(db, st, Select(st, g, sel), key)
  {
    SelectStep(db, st, g, sel);
  }

  lemma ChooseDefaultStep(db: Db, st: State, g: Group, key: Key)
    requires Sound(db) && Shape(db, st) && key in MembersOf(db, g)
    ensures var s := ChooseDefault(db, st, g);
            && Shape(db, s) && OnlyLevel(db, st, s, key)
            && (forall x :: OptOf(s, x).selectedBy == OptOf(st, x).selectedBy)
            && (AtMostOneOn(db, st, g) ==> AtMostOneOn(db, s, g))
            && (forall x :: OptOf(s, x).userSet == OptOf(st, x).userSet)
  {
    hide Sound, Shape, OnlyLevel, Best, SetOn;
    BestIsLeast(db, st, g);
    OnlyLevelStart(db, st, key);
    var b := Best(db, st, g);
    if b.Some? && b != ChoiceOf(st, g).selected {
      SetOnStep(db, st, g, b.value, false);
      SameChoice(db, g, key, b.value);
      OnlyLevelOf(db, st, SetOn(db, st, g, b.value, false), key, b.value);
    }
  }

  lemma RankSaysEnable(db: Db, st: State, k: Key, asked: Option<Key>)
    ensures ChoiceRank(db, st, k, asked).0 <= 6 && (ChoiceRank(db, st, k, asked).0 == 6 <==> !CanEnable(db, st, k))
  {
    hide CanEnable;
  }

  /** If the best default cannot be enabled, nothing in the choice can. */
  lemma BestCannot(db: Db, st: State, g: Group)
    requires Best(db, st, g).Some? && !CanEnable(db, st, Best(db, st, g).value)
    ensures !Enableable(db, st, g)
  {
    hide Best, ChoiceRank, CanEnable;
    BestIsLeast(db, st, g);
    var b, asked := Best(db, st, g).value, ChoiceOf(st, g).requested;
    RankSaysEnable(db, st, b, asked);
    forall m | m in MembersOf(db, g)
      ensures !CanEnable(db, st, m)
    {
      RankSaysEnable(db, st, m, asked);
    }
  }

  lemma SameValuesFull(db: Db, a: State, b: State, g: Group)
    requires forall x :: ValueOf(a, x) == ValueOf(b, x)
    ensures SomeOn(db, a, g) <==> SomeOn(db, b, g)
    ensures Enableable(db, a, g) <==> Enableable(db, b, g)
  {
    hide CanEnable;
    forall m
      ensures (CanEnable(db, a, m) <==> CanEnable(db, b, m)) && (On(a, m) <==> On(b, m))
    {
      SameValuesSight(db, a, b, m);
    }
  }

  /** Picking a default leaves the choice full, unless a selection is recorded and nothing
      is on; and if it changes nothing the choice was as it is. */
  lemma ChooseDefaultFills(db: Db, st: State, g: Group)
    requires Sound(db) && Shape(db, st) && MembersOf(db, g) != []
    ensures FullOrSame(db, st, ChooseDefault(db, st, g), g)
    ensures (ChoiceOf(st, g).selected.Some? ==> SomeOn(db, st, g)) ==> Full(db, ChooseDefault(db, st, g), g)
  {
    hide Sound, Shape, Best, SetOn, Flagged, Blocked, OnlyLevel, CanEnable, ForcedOn;
    BestIsLeast(db, st, g);
    var b := Best(db, st, g);
    var s := ChooseDefault(db, st, g);
    if b == ChoiceOf(st, g).selected {
    } else {
      SetOnStep(db, st, g, b.value, false);
      SetOnFills(db, st, g, b.value);
      if !SomeOn(db, s, g) && ChoiceOf(st, g).selected.None? {
        BestCannot(db, st, g);
        SameValuesFull(db, st, s, g);
      } else if SomeOn(db, st, g) && !SomeOn(db, s, g) {
        SameValuesFull(db, st, s, g);
      }
    }
  }

  /** A member asked to go on does, or one that is selected stays on, or it cannot be
      enabled and nothing changes. */
  lemma SetOnFills(db: Db, st: State, g: Group, key: Key)
    requires Sound(db) && Shape(db, st) && key in MembersOf(db, g)
    ensures var s := SetOn(db, st, g, key, false);
            || SomeOn(db, s, g)
            || (!CanEnable(db, st, key) && ChoiceOf(s, g).selected == ChoiceOf(st, g).selected
                && forall x :: ValueOf(s, x) == ValueOf(st, x))
  {
    hide Sound, Shape, OnlyLevel, CanEnable, SetOn, Flagged;
    SetOnStep(db, st, g, key, false);
    SameChoice(db, g, key, key);
    FlaggedStep(db, st, key, B(true), false);
    SameValuesSight(db, st, Flagged(db, st, key, B(true), false), key);
  }

  /** The last member to go off goes on again if it can be enabled; if not, the best
      default takes its place. */
  lemma LastOffStep(db: Db, s: State, k: Key, g: Group, v: Value)
    requires Sound(db) && Shape(db, s) && k in MembersOf(db, g) && HasType(v, BoolType) && v != B(true)
    requires !OtherOn(s, MembersOf(db, g), k)
    ensures var p := Put(s, k, v);
            var r := if CanEnable(db, p, k) then Put(Select(p, g, Some(k)), k, B(true))
                     else ChooseDefault(db, Select(p, g, None), g);
            && Shape(db, r) && OnlyLevel(db, s, r, k)
            && (forall x :: OptOf(r, x).selectedBy == OptOf(s, x).selectedBy)
            && AtMostOneOn(db, r, g) && Full(db, r, g)
            && (CanEnable(db, p, k) ==> On(r, k))
            && (forall x :: OptOf(r, x).userSet == OptOf(s, x).userSet)
  {
    hide Sound, Shape, OnlyLevel, ChooseDefault, OtherOn, CanEnable, Select, Put;
    SameChoice(db, g, k, k);
    NoOtherOn(s, MembersOf(db, g), k);
    var p := Put(s, k, v);
    PutStep(db, s, k, v);
    if CanEnable(db, p, k) {
      SelectStep(db, p, g, Some(k));
      SelectIsOnLevel(db, p, g, k, Some(k));
      var q := Select(p, g, Some(k));
      PutStep(db, q, k, B(true));
      OnlyLevelOn(db, s, p, q, k);
      OnlyLevelOn(db, s, q, Put(q, k, B(true)), k);
    } else {
      SelectStep(db, p, g, None);
      SelectIsOnLevel(db, p, g, k, None);
      var q := Select(p, g, None);
      ChooseDefaultStep(db, q, g, k);
      NoneSelected(p, g);
      ChooseDefaultFills(db, q, g);
      OnlyLevelOn(db, s, p, q, k);
      OnlyLevelOn(db, s, q, ChooseDefault(db, q, g), k);
    }
  }

  lemma NoneSelected(st: State, g: Group)
    ensures ChoiceOf(Select(st, g, None), g).selected == None
  {
  }

  /** No assignment leaves two members of its choice on, if there were not two before; nor
      does it leave a choice without one that could have one. */
  lemma SetOwnStep(db: Db, st: State, k: Key, v: Value, user: bool)
    requires Sound(db) && Shape(db, st) && k in db.decls && HasType(v, DeclOf(db, k).datatype_)
    ensures var s := SetOwn(db, st, k, v, user);
            && Shape(db, s) && OnlyLevel(db, st, s, k)
            && (forall x :: OptOf(s, x).selectedBy == OptOf(st, x).selectedBy)
            && (!user ==> forall x :: OptOf(s, x).userSet == OptOf(st, x).userSet)
            && (forall g :: DeclOf(db, k).group == Some(g) && AtMostOneOn(db, st, g) ==> AtMostOneOn(db, s, g))
            && (forall g :: DeclOf(db, k).group == Some(g) ==> FullOrSame(db, st, s, g))
            && (forall g :: DeclOf(db, k).group == Some(g) && v == B(false) && On(st, k) ==> Full(db, s, g))
  {
    hide Sound, Shape, OnlyLevel, SetOn, ChooseDefault, OtherOn, CanEnable, Select, Put, Flagged, Enableable;
    FlaggedStep(db, st, k, v, user);
    var s := Flagged(db, st, k, v, user);
    if DeclOf(db, k).group.Some? {
      GroupIsKnown(db, k);
    }
    if !Blocked(db, s, k, v) {
      if DeclOf(db, k).group.None? {
        PutStep(db, s, k, v);
        OnlyLevelOn(db, st, s, Put(s, k, v), k);
      } else {
        SameChoice(db, DeclOf(db, k).group.value, k, k);
        if v == B(true) {
          SetOnStep(db, st, DeclOf(db, k).group.value, k, user);
        } else {
          SetOffStep(db, s, k, DeclOf(db, k).group.value, v);
          OnlyLevelOn(db, st, s, SetOwn(db, st, k, v, user), k);
        }
      }
    }
  }

  /** Turning a member off, once its flags are set. */
  lemma SetOffStep(db: Db, s: State, k: Key, g: Group, v: Value)
    requires Sound(db) && Shape(db, s) && k in MembersOf(db, g) && HasType(v, BoolType) && v != B(true)
    ensures var p := Put(s, k, v);
            var r := if OtherOn(s, MembersOf(db, g), k) then p
                     else if CanEnable(db, p, k) then Put(Select(p, g, Some(k)), k, B(true))
                     else ChooseDefault(db, Select(p, g, None), g);
            && Shape(db, r) && OnlyLevel(db, s, r, k)
            && (forall x :: OptOf(r, x).selectedBy == OptOf(s, x).selectedBy)
            && (forall x :: OptOf(r, x).userSet == OptOf(s, x).userSet)
            && (AtMostOneOn(db, s, g) ==> AtMostOneOn(db, r, g)) && Full(db, r, g)
  {
    hide Sound, Shape, OnlyLevel, ChooseDefault, OtherOn, CanEnable, Select, Put;
    SameChoice(db, g, k, k);
    PutStep(db, s, k, v);
    if OtherOn(s, MembersOf(db, g), k) {
      OtherStaysOn(db, s, g, k, v);
    } else {
      LastOffStep(db, s, k, g, v);
    }
  }

  /** Turning a member off, once its flags are set, keeps the others and the choice firm. */
  lemma SetOffFirm(db: Db, s: State, k: Key, g: Group)
    requires Sound(db) && Shape(db, s) && k in MembersOf(db, g) && OptOf(s, k).selectedBy == {}
    ensures var p := Put(s, k, B(false));
            var r := if OtherOn(s, MembersOf(db, g), k) then p
                     else if CanEnable(db, p, k) then Put(Select(p, g, Some(k)), k, B(true))
                     else ChooseDefault(db, Select(p, g, None), g);
            Firm(db, s, r, g) && ChoiceOf(r, g).requested == ChoiceOf(s, g).requested
  {
    hide *;
    var p := Put(s, k, B(false));
    SameChoice(db, g, k, k);
    BoolsAre();
    PutStep(db, s, k, B(false));
    PutElsewhere(s, k, B(false), k);
    ChoiceByMap(s, p, g);
    SetOffStep(db, s, k, g, B(false));
    if OtherOn(s, MembersOf(db, g), k) {
      PutOffFirm(db, s, k, g);
    } else if CanEnable(db, p, k) {
      var q := Select(p, g, Some(k));
      var r := Put(q, k, B(true));
      SelectStep(db, p, g, Some(k));
      SelectedIs(p, g, Some(k));
      PutStep(db, q, k, B(true));
      PutElsewhere(q, k, B(true), k);
      ChoiceByMap(q, r, g);
      OnValue(r, k);
      forall x
        ensures x != k && On(s, x) ==> On(r, x)
      {
        OnValue(s, x);
        OnValue(r, x);
      }
      PickedIsFirm(db, s, r, g, k);
    } else {
      var q := Select(p, g, None);
      SelectStep(db, p, g, None);
      SelectedIs(p, g, None);
      ChooseDefaultFirm(db, q, g);
      ChooseDefaultStep(db, q, g, k);
      NoneIsFirm(db, s, p, q, k, g);
      FirmOn(db, s, q, ChooseDefault(db, q, g), g);
    }
  }

  lemma PutOffFirm(db: Db, s: State, k: Key, g: Group)
    requires k in MembersOf(db, g) && OptOf(s, k).selectedBy == {} && OtherOn(s, MembersOf(db, g), k)
    ensures Firm(db, s, Put(s, k, B(false)), g)
  {
    hide Rivalled;
    assert forall x :: On(Put(s, k, B(false)), x) ==> On(s, x);
    assert forall x :: x != k && On(s, x) ==> On(Put(s, k, B(false)), x);
    assert ChoiceOf(Put(s, k, B(false)), g) == ChoiceOf(s, g);
  }

  lemma NoneIsFirm(db: Db, s: State, p: State, q: State, k: Key, g: Group)
    requires OptOf(s, k).selectedBy == {} && ChoiceOf(q, g).selected == None
    requires forall x :: OptOf(p, x) == if x == k then OptOf(s, k).(value := B(false)) else OptOf(s, x)
    requires forall x :: OptOf(q, x) == OptOf(p, x)
    ensures Firm(db, s, q, g)
  {
    hide Rivalled;
  }

  /** No assignment turns off a selected member that has no rivals. */
  lemma SetOwnFirm(db: Db, st: State, k: Key, v: Value, user: bool, g: Group)
    requires Sound(db) && Shape(db, st) && k in db.decls && HasType(v, DeclOf(db, k).datatype_)
    requires DeclOf(db, k).group == Some(g)
    ensures var r := SetOwn(db, st, k, v, user);
            && Firm(db, st, r, g)
            && ChoiceOf(r, g).requested == if user && v == B(true) then Some(k) else ChoiceOf(st, g).requested
  {
    hide *;
    GroupIsKnown(db, k);
    SameChoice(db, g, k, k);
    FlaggedStep(db, st, k, v, user);
    FlaggedValues(db, st, k, v, user);
    FlaggedAsks(db, st, k, v, user, g);
    var s := Flagged(db, st, k, v, user);
    SameIsFirm(db, st, s, g);
    SetOwnCases(db, st, k, v, user, g);
    if !Blocked(db, s, k, v) {
      if v == B(true) {
        SetOnFirm(db, st, g, k, user);
      } else {
        SetOffFirm(db, s, k, g);
        FirmOn(db, st, s, SetOwn(db, st, k, v, user), g);
      }
    }
  }

  lemma FlaggedAsks(db: Db, st: State, k: Key, v: Value, user: bool, g: Group)
    requires DeclOf(db, k).group == Some(g)
    ensures ChoiceOf(Flagged(db, st, k, v, user), g).requested ==
            if user && v == B(true) then Some(k) else ChoiceOf(st, g).requested
  {
  }

  lemma SetOwnCases(db: Db, st: State, k: Key, v: Value, user: bool, g: Group)
    requires k in db.decls && DeclOf(db, k).group == Some(g) && DeclOf(db, k).datatype_ == BoolType &&
             HasType(v, BoolType)
    ensures var s := Flagged(db, st, k, v, user);
            var p := Put(s, k, B(false));
            && (Blocked(db, s, k, v) ==> SetOwn(db, st, k, v, user) == s)
            && (v == B(true) ==> SetOwn(db, st, k, v, user) == SetOn(db, st, g, k, user))
            && (v != B(true) ==> v == B(false) && (!Blocked(db, s, k, v) ==>
                  && OptOf(s, k).selectedBy == {}
                  && SetOwn(db, st, k, v, user) ==
                     if OtherOn(s, MembersOf(db, g), k) then p
                     else if CanEnable(db, p, k) then Put(Select(p, g, Some(k)), k, B(true))
                     else ChooseDefault(db, Select(p, g, None), g)))
  {
    hide Flagged, OtherOn, CanEnable, UnsetOthers, ChooseDefault, Select, Put, MembersOf;
  }

  lemma OtherStaysOn(db: Db, st: State, g: Group, k: Key, v: Value)
    requires OtherOn(st, MembersOf(db, g), k)
    ensures SomeOn(db, Put(st, k, v), g)
  {
    var m :| m in MembersOf(db, g) && m != k && On(st, m);
    assert On(Put(st, k, v), m);
  }

  lemma NoOtherOn(st: State, ms: seq<Key>, key: Key)
    requires !OtherOn(st, ms, key)
    ensures forall m :: m in ms && On(st, m) ==> m == key
  {
  }
}
