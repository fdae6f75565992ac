/** The engine that keeps a configuration consistent: assignments that spread along the
    dependencies, defaults and selects between options. */
module Propagation {
  import opened Wrappers
  import opened Options
  import opened Choices
  import opened Levels
  import opened Consistency
  import opened Effects
  import opened Indices

  ghost function OwnFacts(db: Db, key: Key, user: bool): iset<Fact> {
    iset f | Own(db, f, key, user)
  }

  /** The facts up to the level of key. */
  ghost function UpTo(db: Db, rank: Ranks, key: Key): iset<Fact> {
    iset f | LevelOf(db, rank, f) <= RankOf(rank, key)
  }

  /** The facts up to the level of key, and those that look at the value of key. */
  ghost function Upset(db: Db, rank: Ranks, key: Key): iset<Fact> {
    iset f | LevelOf(db, rank, f) <= RankOf(rank, key) || Dirty(db, f, key)
  }

  /*** How the methods fit together ***/

  lemma InShape(db: Db, st: State, k: Key)
    requires Shape(db, st) && k in db.decls
    ensures k in st.opts && OptOf(st, k) == st.opts[k]
  {
  }

  lemma ChoiceInShape(db: Db, st: State, g: Group)
    requires Shape(db, st) && g in db.members
    ensures g in st.choices && ChoiceOf(st, g) == st.choices[g]
  {
  }

  lemma FlaggedTouches(db: Db, st: State, k: Key, v: Value, user: bool)
    ensures Touched(db, st, Flagged(db, st, k, v, user), k)
  {
  }

  lemma PutTouches(db: Db, st: State, k: Key, v: Value)
    ensures Touched(db, st, Put(st, k, v), k) && ValueOf(Put(st, k, v), k) == v
    ensures On(Put(st, k, v), k) <==> v == B(true)
  {
  }

  lemma KeepsIn(db: Db, a: State, b: State, X: iset<Fact>, Y: iset<Fact>)
    requires Keeps(db, a, b, X) && X <= Y
    ensures Keeps(db, a, b, Y)
  {
    hide Good;
  }

  lemma KeepsSelf(db: Db, a: State, X: iset<Fact>)
    ensures Keeps(db, a, a, X)
  {
  }

  lemma KeepsOne(db: Db, a: State, b: State, f: Fact)
    requires Keeps(db, a, b, iset{}) && Good(db, a, f)
    ensures Good(db, b, f)
  {
  }

  /** Of a member of a choice only what was asked of the choice needs care. */
  lemma KeepsMember(db: Db, a: State, b: State, key: Key)
    requires Sound(db) && Keeps(db, a, b, OwnFacts(db, key, false)) && key in db.decls && !Free(db, key)
    requires forall x :: SameChoiceAs(db, ChoiceWith(db, key), x, key) && Good(db, a, Asked(x)) ==>
              Good(db, b, Asked(x))
    ensures Keeps(db, a, b, iset{})
  {
    hide Good, Sound, Own, SameChoiceAs, Free;
    forall f | Good(db, a, f)
      ensures Good(db, b, f)
    {
      if Own(db, f, key, false) {
        MemberOwn(db, b, key, f);
        assert f.Asked? ==> f == Asked(f.k);
      }
    }
  }

  lemma OwnIsVoid(db: Db, st: State, key: Key)
    requires !Free(db, key)
    ensures Good(db, st, Defaulted(key))
  {
  }

  lemma KeepsWith(db: Db, a: State, b: State, key: Key, user: bool)
    requires Keeps(db, a, b, OwnFacts(db, key, user)) && Free(db, key)
    requires Good(db, b, Asked(key)) && Good(db, b, Defaulted(key))
    requires Good(db, a, Unset(key)) ==> Good(db, b, Unset(key))
    ensures Keeps(db, a, b, iset{})
  {
    hide Good, Free, Own;
    forall f | Good(db, a, f)
      ensures Good(db, b, f)
    {
      FreeOwn(db, f, key);
      OwnMore(db, f, key, user);
    }
  }

  lemma OwnMore(db: Db, f: Fact, key: Key, user: bool)
    ensures Own(db, f, key, user) ==> Own(db, f, key, true)
  {
  }

  /** A change of one option upsets the facts of its level and those that look at it. */
  lemma TouchUpsets(db: Db, rank: Ranks, a: State, b: State, key: Key)
    requires Sound(db) && Ranked(db, rank) && Touched(db, a, b, key)
    ensures Keeps(db, a, b, Upset(db, rank, key))
  {
    hide Good, Sound, Ranked, Touched, LevelOf, Dirty;
    forall f | f !in Upset(db, rank, key) && Good(db, a, f)
      ensures Good(db, b, f)
    {
      TouchKeeps(db, rank, a, b, key, f);
    }
  }

  /** A change of one option that leaves its value upsets the facts of its level only. */
  lemma TouchKeepsAbove(db: Db, rank: Ranks, a: State, b: State, key: Key)
    requires Sound(db) && Ranked(db, rank) && Touched(db, a, b, key) && ValueOf(a, key) == ValueOf(b, key)
    ensures Keeps(db, a, b, UpTo(db, rank, key))
  {
    hide Good, Sound, Ranked, Touched, LevelOf, ValueOf;
    forall f | f !in UpTo(db, rank, key) && Good(db, a, f)
      ensures Good(db, b, f)
    {
      TouchKeeps(db, rank, a, b, key, f);
    }
  }

  /** What Propagate makes good again. A choice fills up, and brings on the member asked
      for, if it records no selection in vain. */
  ghost predicate Repairs(db: Db, a: State, b: State, key: Key) {
    forall f :: Dirty(db, f, key) && Recordable(db, a, f) ==> Good(db, b, f)
  }

  ghost predicate Recordable(db: Db, st: State, f: Fact) {
    && (f.Chosen? ==> Good(db, st, Recorded(f.g)))
    && (f.Asked? ==> Good(db, st, Picked(f.k)))
  }

  lemma GoodIsRecorded(db: Db, a: State, b: State, f: Fact)
    requires Good(db, a, f)
    ensures Recordable(db, a, f) || Good(db, b, f)
  {
    hide Meets, CanEnable, Grips, Rivalled, SomeOn, Enableable, Steady;
  }

  lemma RecordableStays(db: Db, a: State, b: State, rank: Ranks, key: Key, f: Fact)
    requires Keeps(db, a, b, Upset(db, rank, key)) && Recordable(db, a, f) && LevelOf(db, rank, f) > RankOf(rank, key)
    ensures Recordable(db, b, f)
  {
    hide Good, RankOf, GroupRank;
    if f.Chosen? {
      assert Recorded(f.g) !in Upset(db, rank, key);
    }
    if f.Asked? {
      assert Picked(f.k) !in Upset(db, rank, key);
    }
  }

  /** All that looked at the option is good again. */
  lemma Repaired(db: Db, rank: Ranks, a: State, q: State, b: State, key: Key)
    requires Keeps(db, a, q, Upset(db, rank, key)) && Keeps(db, q, b, iset{}) && Repairs(db, q, b, key)
    ensures Keeps(db, a, b, UpTo(db, rank, key))
  {
    hide Good, Dirty, LevelOf, RankOf, Recordable;
    forall f | f !in UpTo(db, rank, key) && Good(db, a, f)
      ensures Good(db, b, f)
    {
      GoodIsRecorded(db, a, b, f);
      if Recordable(db, a, f) {
        RecordableStays(db, a, q, rank, key, f);
      }
    }
  }

  /** Void facts are good too. */
  lemma RepairedByVoid(db: Db, rank: Ranks, a: State, b: State, key: Key)
    requires Keeps(db, a, b, Upset(db, rank, key)) && forall f :: Dirty(db, f, key) ==> Good(db, b, f)
    ensures Keeps(db, a, b, UpTo(db, rank, key))
  {
    hide Good, LevelOf, Dirty;
  }

  /** An assignment whose effect on its own level is known and that keeps what is above
      keeps every fact not of its own. */
  lemma SetKeeps(db: Db, rank: Ranks, a: State, b: State, key: Key, v: Value, user: bool)
    requires Sound(db) && Ranked(db, rank) && Shape(db, a) && key in db.decls && HasType(v, DeclOf(db, key).datatype_)
    requires Same(db, rank, SetOwn(db, a, key, v, user), b, RankOf(rank, key) + 1)
    requires Keeps(db, a, b, UpTo(db, rank, key))
    ensures Keeps(db, a, b, OwnFacts(db, key, user))
    ensures Same(db, rank, a, b, RankOf(rank, key))
  {
    hide Good, Sound, Ranked, Shape, Same, LevelOf, RankOf, SetOwn, Own;
    SetBelow(db, rank, a, b, key, v, user);
    forall f | f !in OwnFacts(db, key, user) && Good(db, a, f)
      ensures Good(db, b, f)
    {
      if LevelOf(db, rank, f) <= RankOf(rank, key) {
        SetOwnKeeps(db, rank, a, key, v, user, f);
        SameGood(db, rank, SetOwn(db, a, key, v, user), b, RankOf(rank, key) + 1, f);
      }
    }
  }

  lemma SetBelow(db: Db, rank: Ranks, a: State, b: State, key: Key, v: Value, user: bool)
    requires Sound(db) && Ranked(db, rank) && Shape(db, a) && key in db.decls && HasType(v, DeclOf(db, key).datatype_)
    requires Same(db, rank, SetOwn(db, a, key, v, user), b, RankOf(rank, key) + 1)
    ensures Same(db, rank, a, b, RankOf(rank, key))
  {
    hide *;
    SetOwnStep(db, a, key, v, user);
    var r := SetOwn(db, a, key, v, user);
    OnLevelBelow(db, rank, a, r, key);
    SameUpTo(db, rank, r, b, RankOf(rank, key) + 1, RankOf(rank, key));
    SameOn(db, rank, a, r, b, RankOf(rank, key));
  }

  /** A member that stays on although it is told to go off is selected, and nothing but its
      flags changes. */
  lemma StuckIsSelected(db: Db, st: State, g: Group, k: Key, user: bool)
    requires Sound(db) && Shape(db, st) && k in MembersOf(db, g) && On(UnsetOne(db, st, k, user), k)
    ensures Selectable(db, k) && On(st, k)
    ensures Blocked(db, Flagged(db, st, k, B(false), user), k, B(false))
  {
    hide OnlyLevel, UnsetOne, Sound, Shape, Selectable;
    SameChoice(db, g, k, k);
    UnsetOneStep(db, st, k, user);
    SelectorsAre(db, st, k);
    FlaggedValues(db, st, k, B(false), user);
  }

  lemma DisplacedBy(db: Db, g: Group, key: Key, p: nat, q: nat)
    requires DeclOf(db, key).group == Some(g) && p < q < |MembersOf(db, g)|
    requires MembersOf(db, g)[p] != key && MembersOf(db, g)[q] != key && Selectable(db, MembersOf(db, g)[q])
    ensures Displaceable(db, key)
  {
    hide Selectable;
  }

  /** From a to b the option key went off again and the member m of its choice stayed on;
      nothing else changed but their flags. */
  ghost predicate GaveWay(db: Db, a: State, b: State, key: Key, m: Key) {
    && m != key && SameGroup(db, m, key) && On(a, m) && ValueOf(b, m) == ValueOf(a, m)
    && (forall x :: x != m && x != key ==> OptOf(b, x) == OptOf(a, x))
    && OptOf(b, key) == OptOf(a, key).(value := B(false))
    && (forall h :: DeclOf(db, key).group != Some(h) ==> ChoiceOf(b, h) == ChoiceOf(a, h))
  }

  lemma GivesWay(db: Db, a: State, g: Group, key: Key, m: Key, user: bool)
    requires DeclOf(db, key).group == Some(g) && DeclOf(db, m).group == Some(g) && m != key && On(a, m)
    ensures GaveWay(db, a, Put(Flagged(db, a, m, B(false), user), key, B(false)), key, m)
  {
  }

  lemma GaveWayFrom(db: Db, a: State, q: State, b: State, g: Group, key: Key, m: Key)
    requires GaveWay(db, q, b, key, m) && DeclOf(db, key).group == Some(g)
    requires (forall x :: OptOf(q, x) == OptOf(a, x)) && forall h :: h != g ==> ChoiceOf(q, h) == ChoiceOf(a, h)
    ensures GaveWay(db, a, b, key, m)
  {
  }

  /** An option that was off and gave way leaves what looks at it alone. */
  lemma GaveWayKeeps(db: Db, rank: Ranks, s: State, b: State, key: Key, m: Key, g: Group)
    requires Sound(db) && Ranked(db, rank) && Shape(db, s) && key in db.decls && DeclOf(db, key).group == Some(g)
    requires GaveWay(db, Put(s, key, B(true)), b, key, m) && AtMostOneOn(db, s, g)
    ensures Keeps(db, s, b, UpTo(db, rank, key))
  {
    hide Sound, Ranked, Keeps, RankOf;
    GroupIsKnown(db, key);
    GroupOfOther(db, g, key, m);
    ShapeOf(db, s, key);
    SameChoice(db, g, key, key);
    PutElsewhere(s, key, B(true), m);
    assert !On(s, key);
    BackAgain(db, s, b, key, m);
    MemberRank(db, rank, g, key);
    MemberRank(db, rank, g, m);
    TouchKeepsAbove(db, rank, s, b, m);
    UpToByRank(db, rank, m, key);
  }

  lemma GroupOfOther(db: Db, g: Group, key: Key, m: Key)
    requires Sound(db) && DeclOf(db, key).group == Some(g) && SameGroup(db, m, key)
    ensures m in MembersOf(db, g)
  {
    hide Sound;
    assert m in db.decls;
    GroupIsKnown(db, m);
  }

  lemma BackAgain(db: Db, s: State, b: State, key: Key, m: Key)
    requires GaveWay(db, Put(s, key, B(true)), b, key, m) && ValueOf(s, key) == B(false)
    ensures Touched(db, s, b, m) && ValueOf(s, m) == ValueOf(b, m)
  {
    assert OptOf(s, key).(value := B(true)).(value := B(false)) == OptOf(s, key);
    assert forall x :: x != key ==> OptOf(Put(s, key, B(true)), x) == OptOf(s, x);
  }

  lemma UpToByRank(db: Db, rank: Ranks, m: Key, key: Key)
    requires RankOf(rank, m) == RankOf(rank, key)
    ensures UpTo(db, rank, m) == UpTo(db, rank, key)
  {
  }

  /*** What the user asked for ***/

  /** From a to b nothing was asked for, of an option or of a choice. */
  ghost predicate SameWishes(db: Db, a: State, b: State) {
    && (forall x :: OptOf(b, x).requested == OptOf(a, x).requested)
    && (forall x :: OptOf(a, x).userSet ==> OptOf(b, x).userSet)
    && (forall x :: Free(db, x) ==> OptOf(b, x).userSet == OptOf(a, x).userSet)
    && (forall g :: ChoiceOf(b, g).requested == ChoiceOf(a, g).requested)
  }

  /** The state with the request recorded, if the value is one the option takes. */
  function Told(db: Db, st: State, k: Key, v: Value, user: bool): State {
    if Accepts(db, k, v) then Flagged(db, st, k, v, user) else st
  }

  lemma WishesSelf(db: Db, a: State)
    ensures SameWishes(db, a, a)
  {
  }

  lemma WishesOn(db: Db, a: State, b: State, c: State)
    requires SameWishes(db, a, b) && SameWishes(db, b, c)
    ensures SameWishes(db, a, c)
  {
    hide Free, OptOf, ChoiceOf;
  }

  lemma ToldIs(db: Db, st: State, k: Key, v: Value, user: bool)
    ensures Accepts(db, k, v) ==> Told(db, st, k, v, user) == Flagged(db, st, k, v, user)
    ensures !Accepts(db, k, v) ==> Told(db, st, k, v, user) == st
    ensures HasType(v, DeclOf(db, k).datatype_) ==> Told(db, st, k, v, user) == Flagged(db, st, k, v, user)
  {
    hide Flagged;
  }

  /** What the engine itself asks for is not recorded. */
  lemma ToldQuietly(db: Db, st: State, k: Key, v: Value)
    ensures SameWishes(db, st, Told(db, st, k, v, false))
  {
  }

  /** Nor is it when a member is turned off. */
  lemma ToldOff(db: Db, st: State, k: Key, user: bool)
    requires DeclOf(db, k).group.Some?
    ensures SameWishes(db, st, Told(db, st, k, B(false), user))
  {
  }

  /** Going back to what was asked for asks for the same again. */
  lemma ToldAgain(db: Db, st: State, k: Key)
    requires Shape(db, st) && OptOf(st, k).requested.Some?
    ensures SameWishes(db, st, Told(db, st, k, OptOf(st, k).requested.value, true))
  {
    ShapeOf(db, st, k);
    hide Shape;
  }

  lemma PutWishes(db: Db, st: State, k: Key, v: Value)
    ensures SameWishes(db, st, Put(st, k, v))
  {
  }

  lemma SelectWishes(db: Db, st: State, g: Group, k: Option<Key>)
    ensures SameWishes(db, st, Select(st, g, k))
  {
  }

  lemma SelectorWishes(db: Db, st: State, k: Key, sel: set<Key>)
    ensures SameWishes(db, st, WithSelectors(st, k, sel))
  {
  }

  /*** Exclusive choices ***/

  /** Every choice from level n on has at most one member on. */
  ghost predicate Exclusives(db: Db, rank: Ranks, st: State, n: int) {
    forall g :: GroupRank(db, rank, g) >= n ==> AtMostOneOn(db, st, g)
  }

  lemma ExclusiveUp(db: Db, rank: Ranks, st: State, n: int, m: int)
    requires Exclusives(db, rank, st, n) && n <= m
    ensures Exclusives(db, rank, st, m)
  {
    hide AtMostOneOn;
  }

  lemma ExclusiveAt(db: Db, rank: Ranks, st: State, k: Key)
    requires Sound(db) && Ranked(db, rank) && k in db.decls && Exclusives(db, rank, st, RankOf(rank, k))
    ensures Exclusives(db, rank, st, RankOf(rank, k) + 1)
    ensures forall g :: DeclOf(db, k).group == Some(g) ==> AtMostOneOn(db, st, g)
  {
    hide Sound, Ranked, AtMostOneOn, RankOf, GroupRank;
    if DeclOf(db, k).group.Some? {
      GroupIsKnown(db, k);
      MemberRank(db, rank, DeclOf(db, k).group.value, k);
    }
  }

  lemma ExclusiveKept(db: Db, rank: Ranks, a: State, b: State, n: int)
    requires Exclusives(db, rank, a, n) && Keeps(db, a, b, iset{})
    ensures Exclusives(db, rank, b, n)
  {
    hide AtMostOneOn;
    forall g | GroupRank(db, rank, g) >= n
      ensures AtMostOneOn(db, b, g)
    {
      assert Good(db, a, Exclusive(g));
      assert Good(db, b, Exclusive(g));
    }
  }

  lemma ExclusiveAbove(db: Db, rank: Ranks, a: State, b: State, key: Key)
    requires Exclusives(db, rank, a, RankOf(rank, key) + 1) && Keeps(db, a, b, Upset(db, rank, key))
    ensures Exclusives(db, rank, b, RankOf(rank, key) + 1)
  {
    hide AtMostOneOn, RankOf, GroupRank;
    forall g | GroupRank(db, rank, g) >= RankOf(rank, key) + 1
      ensures AtMostOneOn(db, b, g)
    {
      assert Good(db, a, Exclusive(g)) && Exclusive(g) !in Upset(db, rank, key);
      assert Good(db, b, Exclusive(g));
    }
  }

  lemma ExclusiveLinked(db: Db, rank: Ranks, a: State, b: State, s: Key, n: int)
    requires Exclusives(db, rank, a, n) && (Keeps(db, a, b, IfLinks(db, s)) || Keeps(db, a, b, SelectLinks(db, s)))
    ensures Exclusives(db, rank, b, n)
  {
    hide AtMostOneOn, IfTargets, Targets;
    forall g | GroupRank(db, rank, g) >= n
      ensures AtMostOneOn(db, b, g)
    {
      assert Good(db, a, Exclusive(g)) && Exclusive(g) !in IfLinks(db, s) && Exclusive(g) !in SelectLinks(db, s);
      assert Good(db, b, Exclusive(g));
    }
  }

  lemma ExclusiveValues(db: Db, rank: Ranks, a: State, b: State, n: int)
    requires Exclusives(db, rank, a, n) && SameValues(a, b)
    ensures Exclusives(db, rank, b, n)
  {
    hide GroupRank;
    SameOns(a, b);
    hide On;
  }

  lemma ExclusiveLoosened(db: Db, rank: Ranks, a: State, b: State, x: Setting)
    requires Exclusives(db, rank, a, 0) && Keeps(db, a, b, Loosened(db, x))
    ensures Exclusives(db, rank, b, 0)
  {
    hide AtMostOneOn;
    forall g | GroupRank(db, rank, g) >= 0
      ensures AtMostOneOn(db, b, g)
    {
      assert Good(db, a, Exclusive(g)) && Exclusive(g) !in Loosened(db, x);
      assert Good(db, b, Exclusive(g));
    }
  }

  lemma ExclusiveAll(db: Db, rank: Ranks, st: State, n: int)
    requires forall g :: Good(db, st, Exclusive(g))
    ensures Exclusives(db, rank, st, n)
  {
    forall g
      ensures AtMostOneOn(db, st, g)
    {
      assert Good(db, st, Exclusive(g));
    }
  }

  lemma AllExclusive(db: Db, rank: Ranks, st: State)
    requires forall f: Fact :: Good(db, st, f)
    ensures Exclusives(db, rank, st, 0)
  {
    hide Good;
    ExclusiveAll(db, rank, st, 0);
  }

  lemma AllOff(db: Db, st: State, g: Group, key: Key)
    requires !OtherOn(st, MembersOf(db, g), key) && !On(st, key)
    ensures AtMostOneOn(db, st, g)
  {
    forall m | m in MembersOf(db, g)
      ensures !On(st, m)
    {
    }
  }

  /** Turning a member off while another is on is all that happens on its level. */
  lemma OffIsUnset(db: Db, st: State, g: Group, key: Key, m: Key, user: bool)
    requires Sound(db) && key in MembersOf(db, g) && m in MembersOf(db, g) && key != m && On(st, key)
    ensures SetOwn(db, st, m, B(false), user) == UnsetOne(db, st, m, user)
    ensures OtherOn(st, MembersOf(db, g), m)
  {
    SameChoice(db, g, key, m);
    hide Sound, Blocked, SetOn, ChooseDefault;
    var s := Flagged(db, st, m, B(false), user);
    assert OptOf(s, key) == OptOf(st, key);
    assert key in MembersOf(db, g) && key != m && On(s, key);
  }

  /*** The cases of an assignment ***/

  lemma IgnoredIs(db: Db, st: State, k: Key, v: Value, user: bool)
    requires !Accepts(db, k, v)
    ensures SetOwn(db, st, k, v, user) == st
  {
  }

  lemma BlockedIs(db: Db, st: State, k: Key, v: Value, user: bool)
    requires k in db.decls && Accepts(db, k, v) && Blocked(db, Flagged(db, st, k, v, user), k, v)
    ensures SetOwn(db, st, k, v, user) == Flagged(db, st, k, v, user)
  {
  }

  /** What a member's assignment comes to once its new value v is in place, in state p. */
  function Regroup(db: Db, p: State, g: Group, k: Key, v: Value, user: bool): State {
    if v == B(true) then UnsetOthers(db, Select(p, g, Some(k)), k, MembersOf(db, g), user)
    else if OtherOn(p, MembersOf(db, g), k) then p
    else if CanEnable(db, p, k) then Put(Select(p, g, Some(k)), k, B(true))
    else ChooseDefault(db, Select(p, g, None), g)
  }

  lemma SetOwnIs(db: Db, st: State, k: Key, v: Value, user: bool)
    requires k in db.decls && Accepts(db, k, v) && !Blocked(db, Flagged(db, st, k, v, user), k, v)
    ensures var p := Put(Flagged(db, st, k, v, user), k, v);
            SetOwn(db, st, k, v, user) ==
            match DeclOf(db, k).group
            case None => p
            case Some(g) => Regroup(db, p, g, k, v, user)
  {
    hide Flagged, Blocked, Accepts, CanEnable, ChooseDefault, UnsetOthers;
    var s := Flagged(db, st, k, v, user);
    var p := Put(s, k, v);
    assert forall m :: m != k ==> (On(p, m) <==> On(s, m));
  }

  /** How far along an assignment is. Inside a choice, the last member to go off calls for
      a default, which goes on, which turns off others. */
  function Phase(db: Db, st: State, k: Key, v: Value): nat {
    match DeclOf(db, k).group
    case None => 3
    case Some(g) =>
      if v == B(true) then 6
      else if OtherOn(st, MembersOf(db, g), k) then 3
      else 9
  }

  function RegroupPhase(db: Db, st: State, g: Group, k: Key, v: Value): nat {
    if v == B(true) then 5
    else if OtherOn(st, MembersOf(db, g), k) then 2
    else 8
  }

  lemma PhaseDrops(db: Db, st: State, k: Key, v: Value, user: bool)
    ensures forall g :: DeclOf(db, k).group == Some(g) ==>
              RegroupPhase(db, Put(Flagged(db, st, k, v, user), k, v), g, k, v) < Phase(db, st, k, v)
    ensures 2 < Phase(db, st, k, v)
  {
    var p := Put(Flagged(db, st, k, v, user), k, v);
    assert forall m :: m != k ==> (On(p, m) <==> On(st, m));
  }

  lemma FreeIs(db: Db, k: Key)
    requires k in db.decls
    ensures Free(db, k) <==> DeclOf(db, k).group.None?
  {
  }

  lemma RegroupIs(db: Db, p: State, g: Group, k: Key, v: Value, user: bool)
    ensures v == B(true) ==>
              Regroup(db, p, g, k, v, user) == UnsetOthers(db, Select(p, g, Some(k)), k, MembersOf(db, g), user)
    ensures v != B(true) && OtherOn(p, MembersOf(db, g), k) ==> Regroup(db, p, g, k, v, user) == p
    ensures v != B(true) && !OtherOn(p, MembersOf(db, g), k) && CanEnable(db, p, k) ==>
              Regroup(db, p, g, k, v, user) == Put(Select(p, g, Some(k)), k, B(true))
    ensures v != B(true) && !OtherOn(p, MembersOf(db, g), k) && !CanEnable(db, p, k) ==>
              Regroup(db, p, g, k, v, user) == ChooseDefault(db, Select(p, g, None), g)
    ensures RegroupPhase(db, p, g, k, v) == if v == B(true) then 5 else if OtherOn(p, MembersOf(db, g), k) then 2 else 8
  {
    hide UnsetOthers, OtherOn, CanEnable, Put, Select, ChooseDefault;
  }

  lemma DirtyIsVoid(db: Db, st: State, key: Key)
    requires Displaceable(db, key)
    ensures forall f :: Dirty(db, f, key) ==> Good(db, st, f)
  {
    forall f | Dirty(db, f, key)
      ensures Good(db, st, f)
    {
      assert !Steady(db, f);
    }
  }

  lemma EmptyIn<T>(X: iset<T>)
    ensures iset{} <= X
  {
  }

  lemma UpToInUpset(db: Db, rank: Ranks, key: Key)
    ensures UpTo(db, rank, key) <= Upset(db, rank, key)
  {
  }

  lemma ChoiceOn(db: Db, rank: Ranks, a: State, b: State, g: Group, key: Key, sel: Option<Key>)
    requires Sound(db) && Ranked(db, rank) && (forall x :: OptOf(a, x) == OptOf(b, x))
    requires DeclOf(db, key).group == Some(g) && forall h :: h != g ==> ChoiceOf(a, h) == ChoiceOf(b, h)
    ensures Keeps(db, a, b, UpTo(db, rank, key)) && ValueOf(a, key) == ValueOf(b, key)
  {
    hide Sound, Ranked, Keeps;
    TouchKeepsAbove(db, rank, a, b, key);
  }

  /** One step of turning off the other members. */
  lemma UnsetOthersStepIs(db: Db, st: State, key: Key, ms: seq<Key>, i: nat, user: bool)
    requires i < |ms|
    ensures ms[i] == key ==> UnsetOthers(db, st, key, ms[i..], user) == UnsetOthers(db, st, key, ms[i + 1..], user)
    ensures var s := UnsetOne(db, st, ms[i], user);
            ms[i] != key ==>
              UnsetOthers(db, st, key, ms[i..], user) ==
              if On(s, ms[i]) then Put(s, key, B(false)) else UnsetOthers(db, s, key, ms[i + 1..], user)
  {
    hide UnsetOne, Put;
    assert ms[i..][1..] == ms[i + 1..];
  }

  lemma UnsetOneElse(db: Db, st: State, k: Key, user: bool, x: Key)
    requires x != k
    ensures OptOf(UnsetOne(db, st, k, user), x) == OptOf(st, x)
  {
  }

  lemma BestFromStep(db: Db, st: State, asked: Option<Key>, ms: seq<Key>, i: nat, sel: Option<Key>, best: (int, int))
    requires i < |ms|
    ensures var r := ChoiceRank(db, st, ms[i], asked);
            BestFrom(db, st, asked, ms[i..], sel, best) ==
            if sel != Some(ms[i]) && Lower(r, best) then BestFrom(db, st, asked, ms[i + 1..], Some(ms[i]), r)
            else BestFrom(db, st, asked, ms[i + 1..], sel, best)
  {
    hide ChoiceRank, Lower;
    assert ms[i..][1..] == ms[i + 1..];
  }

  lemma BestIs(db: Db, st: State, g: Group)
    ensures Best(db, st, g) ==
            BestFrom(db, st, ChoiceOf(st, g).requested, MembersOf(db, g), ChoiceOf(st, g).selected,
                     StartRank(db, st, g))
    ensures forall asked, sel, best :: BestFrom(db, st, asked, [], sel, best) == sel
  {
    hide BestFrom, StartRank, ChoiceOf;
    forall asked, sel, best
      ensures BestFrom(db, st, asked, [], sel, best) == sel
    {
      BestFromNone(db, st, asked, sel, best);
    }
  }

  lemma BestFromNone(db: Db, st: State, asked: Option<Key>, sel: Option<Key>, best: (int, int))
    ensures BestFrom(db, st, asked, [], sel, best) == sel
  {
  }

  lemma ChooseDefaultIs(db: Db, st: State, g: Group)
    requires Sound(db)
    ensures var b := Best(db, st, g);
            if b == ChoiceOf(st, g).selected then ChooseDefault(db, st, g) == st
            else
              && b.Some? && b.value in MembersOf(db, g)
              && ChooseDefault(db, st, g) == SetOwn(db, st, b.value, B(true), false)
  {
    hide Best, Flagged, Blocked, UnsetOthers, Sound;
    BestIsLeast(db, st, g);
    var b := Best(db, st, g);
    if b.Some? && b.value in MembersOf(db, g) {
      SameChoice(db, g, b.value, b.value);
    }
  }

  lemma DefaultOwnIs(db: Db, st: State, k: Key)
    ensures DefaultOwn(db, st, k) ==
            if OptOf(st, k).userSet then st
            else match DeclOf(db, k).group
              case Some(g) => ChooseDefault(db, st, g)
              case None => SetOwn(db, st, k, DefaultOf(db, st, k), false)
  {
    hide OptOf, SetOwn, ChooseDefault, DefaultOf;
  }

  lemma DefaultBelow(db: Db, rank: Ranks, a: State, b: State, k: Key)
    requires Sound(db) && Ranked(db, rank) && Shape(db, a) && k in db.decls
    requires Same(db, rank, DefaultOwn(db, a, k), b, RankOf(rank, k) + 1)
    ensures Same(db, rank, a, b, RankOf(rank, k))
  {
    hide *;
    DefaultOwnIsStep(db, a, k);
    var r := DefaultOwn(db, a, k);
    OwnStepIs(db, a, r, k);
    OnLevelBelow(db, rank, a, r, k);
    SameUpTo(db, rank, r, b, RankOf(rank, k) + 1, RankOf(rank, k));
    SameOn(db, rank, a, r, b, RankOf(rank, k));
  }

  lemma OwnStepIs(db: Db, a: State, b: State, k: Key)
    requires OwnStep(db, a, b, k, false)
    ensures OnlyLevel(db, a, b, k) && Shape(db, b)
  {
  }

  lemma PhaseIsSmall(db: Db, st: State, k: Key, v: Value)
    ensures Phase(db, st, k, v) < 10
  {
  }

  /*** Forcing ***/

  ghost function LinkFacts(src: Key, k: Key): iset<Fact> {
    iset{Linked(src, k)}
  }

  lemma ForcedKeeps(db: Db, rank: Ranks, a: State, b: State, k: Key, v: bool, src: Key)
    requires Sound(db) && Ranked(db, rank) && Shape(db, a) && src in db.decls && k in Targets(db.decls[src]) &&
             k in db.decls
    requires Same(db, rank, Force(db, a, k, v, src), b, RankOf(rank, k) + 1)
    requires Keeps(db, a, b, UpTo(db, rank, k))
    ensures Keeps(db, a, b, LinkFacts(src, k))
    ensures Same(db, rank, a, b, RankOf(rank, k))
    ensures src in OptOf(b, k).selectedBy <==> v
  {
    hide Good, Sound, Ranked, Shape, Same, LevelOf, RankOf, Force, Targets, OnlyLevel, OptOf;
    var n := RankOf(rank, k) + 1;
    var r := Force(db, a, k, v, src);
    ForceStep(db, a, k, v, src);
    OnLevelBelow(db, rank, a, r, k);
    SameUpTo(db, rank, r, b, n, n - 1);
    SameOn(db, rank, a, r, b, n - 1);
    SameOpt(db, rank, r, b, n, k);
    forall f | f !in LinkFacts(src, k) && Good(db, a, f)
      ensures Good(db, b, f)
    {
      if LevelOf(db, rank, f) <= RankOf(rank, k) {
        ForceKeeps(db, rank, a, k, v, src, f);
        SameGood(db, rank, r, b, n, f);
      }
    }
  }

  lemma ForceIs(db: Db, st: State, k: Key, v: bool, src: Key)
    requires k in db.decls
    ensures var sel := OptOf(st, k).selectedBy;
            Force(db, st, k, v, src) ==
            if v == (src in sel) then st
            else Reselect(db, WithSelectors(st, k, if v then sel + {src} else sel - {src}), k)
    ensures Reselect(db, st, k) ==
            if OptOf(st, k).selectedBy != {} then SetOwn(db, st, k, B(true), false)
            else if OptOf(st, k).requested.Some? then SetOwn(db, st, k, OptOf(st, k).requested.value, true)
            else DefaultOwn(db, st, k)
  {
    hide SetOwn, DefaultOwn;
  }

  lemma OwnInUpTo(db: Db, rank: Ranks, k: Key, user: bool)
    requires Ranked(db, rank) && k in db.decls
    ensures OwnFacts(db, k, user) <= UpTo(db, rank, k)
  {
    hide RankOf, DependsKeys, DefaultKeys, IfKeys, IfTargets, Targets;
  }

  lemma TypedAsked(db: Db, st: State, k: Key)
    requires Sound(db) && Shape(db, st) && k in db.decls
    ensures OptOf(st, k).requested.Some? ==> HasType(OptOf(st, k).requested.value, DeclOf(db, k).datatype_)
    ensures OptOf(st, k).selectedBy != {} ==> HasType(B(true), DeclOf(db, k).datatype_)
    ensures On(st, k) ==> HasType(B(false), DeclOf(db, k).datatype_)
  {
    hide Sound, Shape;
    ShapeOf(db, st, k);
    if OptOf(st, k).selectedBy != {} {
      SelectedIsBool(db, st, k);
    }
  }

  /*** Conditional selects ***/

  predicate NotIn(list: seq<(Key, Cond)>, i: nat, k: Key) {
    forall j :: i <= j < |list| ==> list[j].0 != k
  }

  lemma {:induction false} LastCondAt(list: seq<(Key, Cond)>, i: nat, k: Key)
    requires i < |list| && list[i].0 == k && NotIn(list, i + 1, k)
    ensures LastCond(list, k) == Some(list[i].1)
  {
    var n := |list| - 1;
    if i < n {
      LastCondAt(list[..n], i, k);
    }
  }

  ghost function IfLinks(db: Db, s: Key): iset<Fact> {
    iset f: Fact | f.Linked? && f.s == s && s in db.decls && f.k in IfTargets(db.decls[s])
  }

  /** After its last entry has been seen, the conditional select of k is recorded. */
  lemma LinkedNow(db: Db, st: State, s: Key, i: nat, k: Key)
    requires s in db.decls && i < |db.decls[s].selectIf| && db.decls[s].selectIf[i].0 == k
    requires NotIn(db.decls[s].selectIf, i + 1, k)
    requires s in OptOf(st, k).selectedBy <==> On(st, s) && Holds(st, db.decls[s].selectIf[i].1)
    ensures Good(db, st, Linked(s, k))
  {
    hide Holds, LastCond, NotIn;
    LastCondAt(db.decls[s].selectIf, i, k);
  }

  /** Forcing an option changes neither its selector nor the conditions it is forced on. */
  lemma ConditionsStay(db: Db, rank: Ranks, a: State, b: State, s: Key, i: nat)
    requires Ranked(db, rank) && s in db.decls && i < |db.decls[s].selectIf| && db.decls[s].selectIf[i].0 in db.decls
    requires Same(db, rank, a, b, RankOf(rank, db.decls[s].selectIf[i].0))
    ensures ValueOf(a, s) == ValueOf(b, s) && (On(a, s) <==> On(b, s))
    ensures Holds(a, db.decls[s].selectIf[i].1) <==> Holds(b, db.decls[s].selectIf[i].1)
  {
    hide *;
    var k, c := db.decls[s].selectIf[i].0, db.decls[s].selectIf[i].1;
    var n := RankOf(rank, k);
    RanksOfIf(db, rank, s);
    EntryKeys(db, s, i);
    NamesKnown(db, rank, s);
    SameOpt(db, rank, a, b, n, s);
    OnByOpt(a, b, s);
    forall x | x in CondKeys(c)
      ensures OptOf(a, x) == OptOf(b, x)
    {
      SameOpt(db, rank, a, b, n, x);
    }
    AgreeByOpt(a, b, CondKeys(c));
    CondFrame(a, b, c);
    SameHolds(a, b, c);
  }

  lemma EntryKeys(db: Db, s: Key, i: nat)
    requires s in db.decls && i < |db.decls[s].selectIf|
    ensures CondKeys(db.decls[s].selectIf[i].1) <= IfKeys(db.decls[s])
  {
  }

  lemma NamesKnown(db: Db, rank: Ranks, s: Key)
    requires Ranked(db, rank) && s in db.decls
    ensures forall k :: k in IfTargets(db.decls[s]) && k in db.decls ==>
              forall x :: x in IfKeys(db.decls[s]) ==> x in db.decls
  {
    hide RankOf, DependsKeys, DefaultKeys, SameGroup, IfKeys, IfTargets, Targets;
  }

  lemma RanksOfIf(db: Db, rank: Ranks, s: Key)
    requires Ranked(db, rank) && s in db.decls
    ensures forall k :: k in Targets(db.decls[s]) && k in db.decls ==> RankOf(rank, s) < RankOf(rank, k)
    ensures forall i, k :: i in IfKeys(db.decls[s]) && k in IfTargets(db.decls[s]) && k in db.decls ==>
              RankOf(rank, i) < RankOf(rank, k)
    ensures forall i :: 0 <= i < |db.decls[s].selectIf| ==> db.decls[s].selectIf[i].0 in IfTargets(db.decls[s])
    ensures IfTargets(db.decls[s]) <= Targets(db.decls[s])
  {
    hide RankOf, DependsKeys, DefaultKeys, SameGroup;
  }

  lemma KeepsBut(db: Db, a: State, b: State, src: Key, k: Key, f: Fact)
    requires Keeps(db, a, b, LinkFacts(src, k)) && Good(db, a, f) && f != Linked(src, k)
    ensures Good(db, b, f)
  {
    hide Good;
  }

  lemma LinkIn(db: Db, s: Key, k: Key)
    requires s in db.decls && k in IfTargets(db.decls[s])
    ensures LinkFacts(s, k) <= IfLinks(db, s)
  {
  }

  /** What was broken on the way is mended. */
  lemma LinksMended(db: Db, a: State, b: State, s: Key)
    requires s in db.decls && Keeps(db, a, b, IfLinks(db, s))
    requires forall k :: k in IfTargets(db.decls[s]) ==> Good(db, b, Linked(s, k))
    ensures Keeps(db, a, b, iset{})
  {
    hide Good, IfTargets;
    forall f | Good(db, a, f)
      ensures Good(db, b, f)
    {
      if f in IfLinks(db, s) {
        assert f == Linked(s, f.k);
      }
    }
  }

  lemma UnknownLink(db: Db, st: State, s: Key, k: Key)
    requires k !in db.decls
    ensures Good(db, st, Linked(s, k))
  {
  }

  /*** Dependents ***/

  ghost function SelectLinks(db: Db, s: Key): iset<Fact> {
    iset f: Fact | f.Linked? && f.s == s && s in db.decls && f.k in Targets(db.decls[s])
  }

  lemma SelectIn(db: Db, s: Key, i: nat)
    requires s in db.decls && i < |db.decls[s].select|
    ensures db.decls[s].select[i] in Targets(db.decls[s])
    ensures LinkFacts(s, db.decls[s].select[i]) <= SelectLinks(db, s)
  {
  }

  /** A plain select of a free option is recorded. */
  lemma PlainLink(db: Db, st: State, s: Key, k: Key, value: Value)
    requires s in db.decls && k !in IfTargets(db.decls[s])
    requires Free(db, s) ==> ValueOf(st, s) == value && (s in OptOf(st, k).selectedBy <==> value == B(true))
    ensures Good(db, st, Linked(s, k))
  {
    hide LastCond, IfTargets, Targets;
    LastCondKeys(db, s, k);
  }

  lemma LinkedIf(db: Db, a: State, b: State, s: Key)
    requires s in db.decls && Keeps(db, a, b, SelectLinks(db, s))
    requires forall k :: k in db.decls[s].select && k !in IfTargets(db.decls[s]) ==> Good(db, b, Linked(s, k))
    ensures Keeps(db, a, b, IfLinks(db, s))
  {
    hide Good;
  }

  lemma LinkedAll(db: Db, b: State, s: Key)
    requires s in db.decls && forall k :: k in Targets(db.decls[s]) ==> Good(db, b, Linked(s, k))
    ensures forall k :: Good(db, b, Linked(s, k))
  {
    hide Picks, Targets, LastCond;
  }

  /** Turning off an option that can no longer be enabled. */
  lemma OffDone(db: Db, rank: Ranks, a: State, b: State, k: Key)
    requires Sound(db) && Ranked(db, rank) && Shape(db, a) && k in db.decls && On(a, k) && !CanEnable(db, a, k)
    requires Same(db, rank, SetOwn(db, a, k, B(false), false), b, RankOf(rank, k) + 1) &&
             Keeps(db, a, b, OwnFacts(db, k, false))
    ensures Keeps(db, a, b, iset{}) && (Good(db, a, Picked(k)) ==> Good(db, b, Asked(k))) && Good(db, b, Defaulted(k))
    ensures forall g :: DeclOf(db, k).group == Some(g) ==> Good(db, b, Chosen(g))
  {
    hide Good, Sound, Ranked, Shape, Same, SetOwn, CanEnable, On, OptOf, RankOf, SameChoiceAs;
    if Free(db, k) {
      OnIsBool(db, a, k);
      OffSettles(db, rank, a, k);
      OwnToState(db, rank, SetOwn(db, a, k, B(false), false), b, k);
      KeepsWith(db, a, b, k, false);
    } else {
      forall x | SameChoiceAs(db, ChoiceWith(db, k), x, k) && Good(db, a, Asked(x))
        ensures Good(db, b, Asked(x))
      {
        OffAsked(db, rank, a, ChoiceWith(db, k), k, false, x);
        MemberToState(db, rank, SetOwn(db, a, k, B(false), false), b, ChoiceWith(db, k), k, x);
      }
      KeepsMember(db, a, b, k);
      OwnIsVoid(db, b, k);
      OffFills(db, rank, a, b, k);
      if Good(db, a, Picked(k)) {
        CannotBeMet(db, a, k);
        InOwnChoice(db, k);
      }
    }
  }

  lemma InOwnChoice(db: Db, k: Key)
    requires Sound(db) && k in db.decls && DeclOf(db, k).group.Some?
    ensures SameChoiceAs(db, ChoiceWith(db, k), k, k)
  {
    hide Sound;
    GroupIsKnown(db, k);
  }

  /** Nothing can be asked of a member that cannot be enabled. */
  lemma CannotBeMet(db: Db, st: State, k: Key)
    requires Good(db, st, Picked(k)) && !CanEnable(db, st, k) && !Free(db, k)
    ensures Good(db, st, Asked(k))
  {
    hide CanEnable, Grips, Rivalled, Steady;
  }

  lemma MemberToState(db: Db, rank: Ranks, r: State, b: State, g: Group, k: Key, x: Key)
    requires Sound(db) && Ranked(db, rank) && Same(db, rank, r, b, RankOf(rank, k) + 1) && SameChoiceAs(db, g, x, k)
    ensures Good(db, r, Asked(x)) <==> Good(db, b, Asked(x))
  {
    hide Good, Sound, Ranked, Same, RankOf;
    MemberRank(db, rank, g, x);
    MemberRank(db, rank, g, k);
    OwnToState(db, rank, r, b, x);
  }

  lemma OffFills(db: Db, rank: Ranks, a: State, b: State, k: Key)
    requires Sound(db) && Ranked(db, rank) && Shape(db, a) && k in db.decls && On(a, k) && DeclOf(db, k).group.Some?
    requires Same(db, rank, SetOwn(db, a, k, B(false), false), b, RankOf(rank, k) + 1)
    ensures Good(db, b, Chosen(DeclOf(db, k).group.value))
  {
    hide Sound, Ranked, Shape, Same, SetOwn, On, RankOf, GroupRank, Full, Steady;
    var g := DeclOf(db, k).group.value;
    var r := SetOwn(db, a, k, B(false), false);
    OnIsBool(db, a, k);
    GroupIsKnown(db, k);
    MemberRank(db, rank, g, k);
    SetOwnStep(db, a, k, B(false), false);
    SameGood(db, rank, r, b, RankOf(rank, k) + 1, Chosen(g));
  }

  /** A default reaches the state the calls leave. */
  lemma DefaultFills(db: Db, rank: Ranks, a: State, b: State, k: Key, g: Group)
    requires Sound(db) && Ranked(db, rank) && Shape(db, a) && k in db.decls && DeclOf(db, k).group == Some(g)
    requires Same(db, rank, ChooseDefault(db, a, g), b, RankOf(rank, k) + 1) && Good(db, a, Recorded(g))
    ensures Good(db, b, Chosen(g))
  {
    hide Sound, Ranked, Shape, Same, RankOf, GroupRank, Full, SomeOn, Steady, ChooseDefault;
    GroupIsKnown(db, k);
    MemberRank(db, rank, g, k);
    ChooseDefaultFills(db, a, g);
    SameGood(db, rank, ChooseDefault(db, a, g), b, RankOf(rank, k) + 1, Chosen(g));
  }

  lemma OnIsBool(db: Db, st: State, k: Key)
    requires Shape(db, st) && On(st, k)
    ensures DeclOf(db, k).datatype_ == BoolType
  {
    hide Shape;
    ShapeOf(db, st, k);
  }

  lemma OwnToState(db: Db, rank: Ranks, r: State, b: State, k: Key)
    requires Sound(db) && Ranked(db, rank) && Same(db, rank, r, b, RankOf(rank, k) + 1)
    ensures Good(db, r, Asked(k)) <==> Good(db, b, Asked(k))
    ensures Good(db, r, Defaulted(k)) <==> Good(db, b, Defaulted(k))
    ensures Good(db, r, Unset(k)) <==> Good(db, b, Unset(k))
  {
    hide Good, Sound, Ranked, Same;
    SameGood(db, rank, r, b, RankOf(rank, k) + 1, Asked(k));
    SameGood(db, rank, r, b, RankOf(rank, k) + 1, Defaulted(k));
    SameGood(db, rank, r, b, RankOf(rank, k) + 1, Unset(k));
  }

  /** Going back to what the user asked for. */
  lemma AskedDone(db: Db, rank: Ranks, a: State, b: State, k: Key)
    requires Sound(db) && Ranked(db, rank) && Shape(db, a) && Free(db, k) && OptOf(a, k).userSet &&
             OptOf(a, k).requested.Some?
    requires Same(db, rank, SetOwn(db, a, k, OptOf(a, k).requested.value, true), b, RankOf(rank, k) + 1)
    requires Keeps(db, a, b, OwnFacts(db, k, true))
    ensures Keeps(db, a, b, iset{}) && Good(db, b, Asked(k)) && Good(db, b, Defaulted(k))
  {
    hide Sound, Ranked, Shape, Same, SetOwn, Meets, Keeps, RankOf, Steady;
    TypedAsked(db, a, k);
    AskedSettles(db, rank, a, k, OptOf(a, k).requested.value);
    OwnToState(db, rank, SetOwn(db, a, k, OptOf(a, k).requested.value, true), b, k);
    KeepsWith(db, a, b, k, true);
  }

  /** An option that has what the user asked for needs nothing. */
  lemma AskedAlready(db: Db, st: State, k: Key)
    requires Shape(db, st) && Free(db, k) && OptOf(st, k).userSet
    requires OptOf(st, k).requested.Some? ==> ValueOf(st, k) == OptOf(st, k).requested.value
    ensures Good(db, st, Asked(k)) && Good(db, st, Defaulted(k))
  {
    hide Shape;
    ShapeOf(db, st, k);
  }

  lemma UnsetAsked(db: Db, st: State, k: Key)
    requires Shape(db, st) && !OptOf(st, k).userSet && Good(db, st, Picked(k))
    ensures Good(db, st, Asked(k))
  {
    hide Shape, Grips, Rivalled, Steady, Meets, CanEnable;
    ChoiceShape(db, st, ChoiceWith(db, k));
  }

  /** Once its default is picked, a choice has what was asked of it. */
  lemma AskedOfChoice(db: Db, rank: Ranks, a: State, b: State, g: Group, k: Key)
    requires Sound(db) && Ranked(db, rank) && Shape(db, a) && k in MembersOf(db, g)
    requires Same(db, rank, ChooseDefault(db, a, g), b, RankOf(rank, k) + 1)
    ensures forall x :: x in MembersOf(db, g) && (Good(db, a, Picked(x)) || Good(db, a, Asked(x))) ==>
              Good(db, b, Asked(x))
  {
    hide Good, Sound, Ranked, Shape, Same, ChooseDefault, RankOf;
    forall x | x in MembersOf(db, g) && (Good(db, a, Picked(x)) || Good(db, a, Asked(x)))
      ensures Good(db, b, Asked(x))
    {
      DefaultAsked(db, rank, a, g, k, x);
      MemberToState(db, rank, ChooseDefault(db, a, g), b, g, k, x);
    }
  }

  lemma ListedAbove(db: Db, rank: Ranks, index: Index, i: Key)
    requires Ranked(db, rank) && (DependsIndexed(db, index) || DefaultIndexed(db, index))
    ensures forall k :: k in ListAt(index, i) ==> k in db.decls && RankOf(rank, i) < RankOf(rank, k)
  {
    hide RankOf, ListAt, DependsKeys, DefaultKeys, SameGroup, IfKeys, IfTargets, Targets;
  }

  lemma DependsListed(db: Db, rank: Ranks, index: Index, i: Key, k: Key)
    requires Ranked(db, rank) && DependsIndexed(db, index) && k in db.decls && i in DependsKeys(db, k)
    ensures k in ListAt(index, i)
  {
    hide RankOf, ListAt, DependsKeys, DefaultKeys, SameGroup, IfKeys, IfTargets, Targets;
  }

  lemma DefaultListed(db: Db, rank: Ranks, index: Index, i: Key, k: Key)
    requires Ranked(db, rank) && DefaultIndexed(db, index) && k in db.decls && i in DefaultKeys(db, k)
    ensures k in ListAt(index, i)
  {
    hide RankOf, ListAt, DependsKeys, DefaultKeys, SameGroup, IfKeys, IfTargets, Targets;
  }

  lemma SelectIfAbove(db: Db, rank: Ranks, index: Index, i: Key)
    requires Ranked(db, rank) && SelectIfIndexed(db, index)
    ensures forall s :: s in ListAt(index, i) ==> s in db.decls
    ensures forall s, k :: s in ListAt(index, i) && s in db.decls && k in IfTargets(db.decls[s]) && k in db.decls ==>
              RankOf(rank, i) < RankOf(rank, k)
    ensures forall s :: s in db.decls && i in IfKeys(db.decls[s]) ==> s in ListAt(index, i)
  {
    hide RankOf, ListAt, DependsKeys, DefaultKeys, SameGroup, IfKeys, IfTargets, Targets;
  }

  /** All that a new value of key can upset has been seen to. */
  lemma AllRepaired(db: Db, a: State, st: State, key: Key)
    requires Sound(db)
    requires forall k :: Good(db, st, Linked(key, k))
    requires forall k :: k in db.decls && key in DependsKeys(db, k) && Good(db, a, Picked(k)) ==> Good(db, st, Asked(k))
    requires forall k :: Free(db, k) && key in DependsKeys(db, k) ==> Good(db, st, Defaulted(k))
    requires forall k, g :: k in db.decls && DeclOf(db, k).group == Some(g) && key in DependsKeys(db, k) ==>
               Good(db, a, Recorded(g)) ==> Good(db, st, Chosen(g))
    requires forall k :: Free(db, k) && key in DefaultKeys(db, k) ==> Good(db, st, Defaulted(k))
    requires forall s, k :: s in db.decls && key in IfKeys(db.decls[s]) && k in IfTargets(db.decls[s]) ==>
              Good(db, st, Linked(s, k))
    ensures Repairs(db, a, st, key)
  {
    hide Good, Free, LastCond, IfTargets, IfKeys, DependsKeys, DefaultKeys, Targets, Sound;
    forall f | Dirty(db, f, key) && Recordable(db, a, f)
      ensures Good(db, st, f)
    {
      match f
      case Asked(k) =>
      case Defaulted(k) =>
      case Linked(s, k) => LastCondKeys(db, s, k);
      case Chosen(g) =>
        var m :| m in MembersOf(db, g) && key in DependsKeys(db, m);
        SameChoice(db, g, m, m);
      case _ =>
    }
  }

  lemma ChooseBelow(db: Db, rank: Ranks, a: State, b: State, k: Key)
    requires Sound(db) && Ranked(db, rank) && Shape(db, a) && k in db.decls && DeclOf(db, k).group.Some?
    requires Same(db, rank, ChooseDefault(db, a, DeclOf(db, k).group.value), b, RankOf(rank, k) + 1)
    ensures Same(db, rank, a, b, RankOf(rank, k))
  {
    hide *;
    var g := DeclOf(db, k).group.value;
    var r := ChooseDefault(db, a, g);
    GroupIsKnown(db, k);
    ChooseDefaultStep(db, a, g, k);
    OnLevelBelow(db, rank, a, r, k);
    SameUpTo(db, rank, r, b, RankOf(rank, k) + 1, RankOf(rank, k));
    SameOn(db, rank, a, r, b, RankOf(rank, k));
  }

  /*** Whole configurations ***/

  /** Nothing set, nothing selected, everything zero. */
  ghost predicate Blank(db: Db, st: State) {
    && st.opts.Keys == db.decls.Keys && st.choices.Keys == db.members.Keys
    && (forall k :: k in db.decls ==> OptOf(st, k) == Opt(Zero(DeclOf(db, k).datatype_), {}, false, None))
    && (forall g :: ChoiceOf(st, g) == NO_CHOICE)
  }

  lemma BlankIsGood(db: Db, st: State)
    requires Blank(db, st)
    ensures Shape(db, st)
    ensures forall f: Fact :: !f.Defaulted? && !f.Chosen? ==> Good(db, st, f)
  {
    forall k
      ensures ShapeAt(db, k, OptOf(st, k)) && !On(st, k) && OptOf(st, k).selectedBy == {} && !OptOf(st, k).userSet
    {
      if k !in db.decls {
        assert OptOf(st, k) == NO_OPT;
      }
    }
    hide Meets, OptOf, Steady, Rivalled, CanEnable;
  }

  /** The option has been given its default, and its choice, if it has one, has been filled. */
  ghost predicate Started(db: Db, st: State, k: Key) {
    Good(db, st, Defaulted(k)) && forall g :: DeclOf(db, k).group == Some(g) ==> Good(db, st, Chosen(g))
  }

  lemma StaysStarted(db: Db, a: State, b: State, k: Key)
    requires Started(db, a, k) && Keeps(db, a, b, iset{})
    ensures Started(db, b, k)
  {
    hide Good;
  }

  lemma NowStarted(db: Db, a: State, b: State, k: Key)
    requires k in db.decls && Good(db, a, Unset(k)) && forall g :: Good(db, a, Recorded(g))
    requires Good(db, b, Defaulted(k))
    requires forall g :: DeclOf(db, k).group == Some(g) && !OptOf(a, k).userSet && Good(db, a, Recorded(g)) ==>
              Good(db, b, Chosen(g))
    ensures Started(db, b, k)
  {
    hide Full, Meets, DefaultOf, Steady, SomeOn;
  }

  lemma RecordedAll(db: Db, a: State, b: State)
    requires Keeps(db, a, b, iset{}) && forall f: Fact :: !f.Defaulted? && !f.Chosen? ==> Good(db, a, f)
    ensures (forall g :: Good(db, b, Recorded(g)) && Good(db, b, Exclusive(g))) && forall k :: Good(db, b, Unset(k))
  {
    hide Good;
  }

  lemma DefaultsKnown(db: Db, a: State, b: State, order: seq<Key>)
    requires Sound(db) && forall k :: k in db.decls ==> k in order
    requires forall k :: k in order ==> Started(db, b, k)
    requires Keeps(db, a, b, iset{}) && forall f: Fact :: !f.Defaulted? && !f.Chosen? ==> Good(db, a, f)
    ensures forall f: Fact :: Good(db, b, f)
  {
    hide Good, Sound;
    forall f: Fact
      ensures Good(db, b, f)
    {
      if f.Defaulted? && f.k !in db.decls {
        OwnIsVoid(db, b, f.k);
      } else if f.Chosen? {
        if MembersOf(db, f.g) == [] {
          EmptyIsChosen(db, b, f.g);
        } else {
          SameChoice(db, f.g, MembersOf(db, f.g)[0], MembersOf(db, f.g)[0]);
        }
      }
    }
  }

  lemma EmptyIsChosen(db: Db, st: State, g: Group)
    requires MembersOf(db, g) == []
    ensures Good(db, st, Chosen(g))
  {
  }

  /*** Settings ***/

  /** A setting from the command line or a file: the user's own, or one that only restores
      a value. */
  datatype Setting = Setting(key: Key, text: string, user: bool)

  predicate IsDigits(s: string) {
    s != "" && forall i :: 0 <= i < |s| ==> '0' <= s[i] <= '9'
  }

  function Digits(s: string): nat
    requires forall i :: 0 <= i < |s| ==> '0' <= s[i] <= '9'
  {
    if s == "" then 0 else Digits(s[..|s| - 1]) * 10 + (s[|s| - 1] as int - '0' as int)
  }

  /** None stands for a text that is no number. */
  function ToInt(s: string): Option<int> {
    if IsDigits(s) then Some(Digits(s))
    else if s != "" && s[0] == '+' && IsDigits(s[1..]) then Some(Digits(s[1..]))
    else if s != "" && s[0] == '-' && IsDigits(s[1..]) then
      var n: int := Digits(s[1..]);
      Some(-n)
    else None
  }

  function ToValue(t: Type, text: string): (v: Option<Value>)
    ensures v.Some? ==> HasType(v.value, t)
  {
    match t
    case BoolType => Some(B(text == "y" || text == "Y"))
    case IntType => (match ToInt(text) case Some(i) => Some(I(i)) case None => None)
    case StringType => Some(S(text))
  }

  /** Only known options with a prompt can be set. */
  predicate Settable(db: Db, k: Key) {
    k in db.decls && db.decls[k].prompted
  }

  /** The facts that the setting does not leave good: that the user did not set the option
      and the other members of its choice; or, when a value is only restored, that it is the
      wanted one. */
  predicate Loosens(db: Db, x: Setting, f: Fact) {
    Settable(db, x.key) && Own(db, f, x.key, x.user) && (f.Unset? || !x.user)
  }

  ghost function Loosened(db: Db, x: Setting): iset<Fact> {
    iset f | Loosens(db, x, f)
  }

  predicate AnyLoosens(db: Db, xs: seq<Setting>, f: Fact) {
    exists x :: x in xs && Loosens(db, x, f)
  }

  ghost function AllLoosened(db: Db, xs: seq<Setting>): iset<Fact> {
    iset f | AnyLoosens(db, xs, f)
  }

  lemma LoosenedIn(db: Db, xs: seq<Setting>, x: Setting)
    requires x in xs
    ensures Loosened(db, x) <= AllLoosened(db, xs)
  {
  }

  lemma SettingKeeps(db: Db, rank: Ranks, a: State, b: State, x: Setting, v: Value)
    requires Sound(db) && Ranked(db, rank) && Shape(db, a) && Settable(db, x.key) &&
             HasType(v, DeclOf(db, x.key).datatype_)
    requires Same(db, rank, SetOwn(db, a, x.key, v, x.user), b, RankOf(rank, x.key) + 1)
    requires Keeps(db, a, b, OwnFacts(db, x.key, x.user))
    ensures Keeps(db, a, b, Loosened(db, x))
    ensures x.user ==> Good(db, b, Defaulted(x.key))
    ensures x.user && (Free(db, x.key) || (v == B(true) && Good(db, a, Picked(x.key)))) ==> Good(db, b, Asked(x.key))
  {
    hide Sound, Ranked, Shape, Same, SetOwn, Good, RankOf, SameChoiceAs, Own;
    if x.user {
      if Free(db, x.key) {
        AskedSettles(db, rank, a, x.key, v);
        OwnToState(db, rank, SetOwn(db, a, x.key, v, x.user), b, x.key);
      } else {
        OwnIsVoid(db, b, x.key);
        InOwnChoice(db, x.key);
        forall y | SameChoiceAs(db, ChoiceWith(db, x.key), y, x.key)
          ensures Good(db, a, Asked(y)) || (v == B(true) && Good(db, a, Picked(y))) ==> Good(db, b, Asked(y))
        {
          MemberSet(db, rank, a, b, x.key, v, y);
        }
      }
      forall f | f !in Loosened(db, x) && Good(db, a, f)
        ensures Good(db, b, f)
      {
        if Own(db, f, x.key, true) {
          SettingOwn(db, b, x, f);
        }
        assert f.Asked? ==> f == Asked(f.k);
      }
    }
  }

  /** The user's setting of a member leaves what was asked of the others. */
  lemma MemberSet(db: Db, rank: Ranks, a: State, b: State, k: Key, v: Value, y: Key)
    requires Sound(db) && Ranked(db, rank) && Shape(db, a) && SameChoiceAs(db, ChoiceWith(db, k), y, k)
    requires HasType(v, DeclOf(db, k).datatype_) && Same(db, rank, SetOwn(db, a, k, v, true), b, RankOf(rank, k) + 1)
    ensures Good(db, a, Asked(y)) || (v == B(true) && Good(db, a, Picked(y))) ==> Good(db, b, Asked(y))
  {
    hide Sound, Ranked, Shape, Same, SetOwn, Good, RankOf, SameChoiceAs;
    var g := ChoiceWith(db, k);
    InChoice(db, g, y, k);
    assert v == B(true) || v == B(false);
    if v == B(true) {
      OnAsked(db, rank, a, g, k, y);
    } else if Good(db, a, Asked(y)) {
      OffAsked(db, rank, a, g, k, true, y);
    }
    MemberToState(db, rank, SetOwn(db, a, k, v, true), b, g, k, y);
  }

  lemma SettingOwn(db: Db, st: State, x: Setting, f: Fact)
    requires Sound(db) && Settable(db, x.key) && x.user && f !in Loosened(db, x) && Own(db, f, x.key, true)
    ensures || f == Asked(x.key) || f == Defaulted(x.key)
            || (f.Asked? && SameChoiceAs(db, ChoiceWith(db, x.key), f.k, x.key))
    ensures Free(db, x.key) ==> f == Asked(x.key) || f == Defaulted(x.key)
  {
    hide Sound;
    if f.Asked? && SameGroup(db, f.k, x.key) {
      GroupIsKnown(db, x.key);
      GroupIsKnown(db, f.k);
    }
  }

  /*** What every configuration reached from the initial one by settings is ***/

  /** A selected option is on, unless another member of its choice can be selected too. */
  lemma SelectedIsOn(db: Db, st: State, xs: seq<Setting>, k: Key)
    requires forall f: Fact :: f !in AllLoosened(db, xs) ==> Good(db, st, f)
    requires k in db.decls && !Rivalled(db, k) && OptOf(st, k).selectedBy != {}
    ensures On(st, k)
  {
    hide Rivalled;
    assert Good(db, st, Forced(k));
  }

  /** An option outside choices that the user cannot see holds its default, as far as its
      dependencies allow, or is on because it is selected, if nothing it looks at can be
      displaced from its choice. */
  lemma HiddenHoldDefaults(db: Db, st: State, xs: seq<Setting>, k: Key)
    requires forall f: Fact :: f !in AllLoosened(db, xs) ==> Good(db, st, f)
    requires Free(db, k) && !db.decls[k].prompted && Steady(db, Defaulted(k))
    ensures if OptOf(st, k).selectedBy != {} then On(st, k) else Meets(db, st, k, Some(DefaultOf(db, st, k)))
  {
    hide Meets, DefaultOf, Steady, Rivalled;
    FreeHasNoRivals(db, k);
    assert Good(db, st, Forced(k)) && Good(db, st, Unset(k)) && Good(db, st, Defaulted(k));
  }

  lemma FreeHasNoRivals(db: Db, k: Key)
    requires Free(db, k)
    ensures !Rivalled(db, k)
  {
    hide Selectable;
  }

  /** A choice of which a member can be enabled has exactly one member on, if nothing its
      members depend on can be displaced. */
  lemma ChoiceHasOneOn(db: Db, st: State, xs: seq<Setting>, g: Group)
    requires forall f: Fact :: f !in AllLoosened(db, xs) ==> Good(db, st, f)
    requires Enableable(db, st, g) && Steady(db, Chosen(g))
    ensures exists m :: m in MembersOf(db, g) && On(st, m) && forall k :: k in MembersOf(db, g) && On(st, k) ==> k == m
  {
    hide Steady, CanEnable;
    assert Good(db, st, Chosen(g)) && Good(db, st, Exclusive(g));
  }

  predicate Restores(db: Db, xs: seq<Setting>, k: Key) {
    exists x :: x in xs && !x.user && (x.key == k || SameGroup(db, k, x.key))
  }

  /** It is the one the user asked for last, whenever that can be enabled, if no other member
      can be selected and no setting restores a value in the choice. */
  lemma AskedMemberIsOn(db: Db, st: State, xs: seq<Setting>, g: Group, k: Key)
    requires Sound(db) && forall f: Fact :: f !in AllLoosened(db, xs) ==> Good(db, st, f)
    requires k in MembersOf(db, g) && !Rivalled(db, k) && Steady(db, Asked(k)) && !Restores(db, xs, k)
    requires ChoiceOf(st, g).requested == Some(k) && CanEnable(db, st, k)
    ensures forall m :: m in MembersOf(db, g) ==> (On(st, m) <==> m == k)
  {
    hide Sound, Steady, Rivalled, CanEnable;
    SameChoice(db, g, k, k);
    assert Good(db, st, Asked(k)) && Good(db, st, Exclusive(g));
  }

  /** With a rival it need not be. A member on that the user marked stays on when its last
      selector is dropped, whatever the user asked for. */
  lemma DroppedStaysOn(db: Db, st: State, g: Group, m: Key, src: Key)
    requires Sound(db) && Shape(db, st) && m in MembersOf(db, g) && AtMostOneOn(db, st, g) && On(st, m)
    requires OptOf(st, m).selectedBy == {src} && OptOf(st, m).userSet
    ensures var r := Force(db, st, m, false, src);
            && OptOf(r, m).selectedBy == {} && On(r, m) && ChoiceOf(r, g).requested == ChoiceOf(st, g).requested
            && forall k :: k in MembersOf(db, g) && k != m ==> !On(r, k)
  {
    hide Sound, Shape, SetOwn, ChooseDefault;
    SameChoice(db, g, m, m);
    ShapeOf(db, st, m);
    assert OptOf(st, m).selectedBy - {src} == {};
    WithSelectorsIs(st, m, {});
    SameOns(st, WithSelectors(st, m, {}));
  }

  /** Two members that are selected at a time are never both on, so a selected member with
      rivals may be off. */
  lemma OneOfTwoIsOff(db: Db, st: State, g: Group, a: Key, b: Key)
    requires Good(db, st, Exclusive(g)) && a in MembersOf(db, g) && b in MembersOf(db, g) && a != b
    ensures !On(st, a) || !On(st, b)
  {
  }
}
