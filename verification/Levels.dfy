/** What an assignment does at its own level depends on nothing above that level. */
module Levels {
  import opened Wrappers
  import opened Options
  import opened Choices

  lemma SameUpTo(db: Db, rank: Ranks, a: State, b: State, n: int, m: int)
    requires Same(db, rank, a, b, n) && m <= n
    ensures Same(db, rank, a, b, m)
  {
  }

  lemma SameOn(db: Db, rank: Ranks, a: State, b: State, c: State, n: int)
    requires Same(db, rank, a, b, n) && Same(db, rank, b, c, n)
    ensures Same(db, rank, a, c, n)
  {
  }

  lemma SameSelf(db: Db, rank: Ranks, a: State, n: int)
    ensures Same(db, rank, a, a, n)
  {
  }

  lemma SameOpt(db: Db, rank: Ranks, a: State, b: State, n: int, k: Key)
    requires Same(db, rank, a, b, n) && k in db.decls && RankOf(rank, k) < n
    ensures OptOf(a, k) == OptOf(b, k)
    ensures forall g :: DeclOf(db, k).group == Some(g) ==> ChoiceOf(a, g) == ChoiceOf(b, g)
  {
    assert SameAt(db, a, b, k);
  }

  /** The expressions of an option of these levels look at lower levels only. */
  lemma SameBelow(db: Db, rank: Ranks, a: State, b: State, n: int, k: Key)
    requires Ranked(db, rank) && Same(db, rank, a, b, n) && k in db.decls && RankOf(rank, k) <= n
    ensures Agree(a, b, DependsKeys(db, k)) && Agree(a, b, DefaultKeys(db, k))
  {
    hide Same, DependsKeys, DefaultKeys;
    forall i | i in DependsKeys(db, k) + DefaultKeys(db, k)
      ensures ValueOf(a, i) == ValueOf(b, i)
    {
      SameOpt(db, rank, a, b, n, i);
    }
  }

  lemma SameSight(db: Db, rank: Ranks, a: State, b: State, n: int, k: Key)
    requires Ranked(db, rank) && Same(db, rank, a, b, n) && k in db.decls && RankOf(rank, k) <= n
    ensures CanEnable(db, a, k) <==> CanEnable(db, b, k)
    ensures DefaultOf(db, a, k) == DefaultOf(db, b, k)
  {
    hide *;
    SameBelow(db, rank, a, b, n, k);
    OptionFrame(db, a, b, k);
  }

  lemma SamePut(db: Db, rank: Ranks, a: State, b: State, n: int, k: Key, v: Value)
    requires Same(db, rank, a, b, n) && k in db.decls && RankOf(rank, k) < n
    ensures Same(db, rank, Put(a, k, v), Put(b, k, v), n)
  {
    SameOpt(db, rank, a, b, n, k);
    SameWithOpt(db, rank, a, b, n, k, OptOf(a, k).(value := v));
  }

  lemma SameWithOpt(db: Db, rank: Ranks, a: State, b: State, n: int, k: Key, o: Opt)
    requires Same(db, rank, a, b, n)
    ensures Same(db, rank, WithOpt(a, k, o), WithOpt(b, k, o), n)
  {
    forall x | x in db.decls && RankOf(rank, x) < n
      ensures SameAt(db, WithOpt(a, k, o), WithOpt(b, k, o), x)
    {
      assert SameAt(db, a, b, x);
    }
  }

  lemma SameFlaggedOff(db: Db, rank: Ranks, a: State, b: State, n: int, k: Key, user: bool)
    requires Same(db, rank, a, b, n) && k in db.decls && RankOf(rank, k) < n
    ensures Same(db, rank, Flagged(db, a, k, B(false), user), Flagged(db, b, k, B(false), user), n)
  {
    SameOpt(db, rank, a, b, n, k);
    hide Same, WithOpt;
    var o := OptOf(a, k).(userSet := OptOf(a, k).userSet || user);
    SameWithOpt(db, rank, a, b, n, k, o);
    SameWithOpt(db, rank, a, b, n, k, o.(requested := Some(B(false))));
  }

  lemma SameBlocked(db: Db, rank: Ranks, a: State, b: State, n: int, k: Key, v: Value)
    requires Ranked(db, rank) && Same(db, rank, a, b, n) && k in db.decls && RankOf(rank, k) < n
    ensures Blocked(db, a, k, v) <==> Blocked(db, b, k, v)
  {
    SameOpt(db, rank, a, b, n, k);
    SameSight(db, rank, a, b, n, k);
  }

  lemma SameUnsetOne(db: Db, rank: Ranks, a: State, b: State, n: int, k: Key, user: bool)
    requires Ranked(db, rank) && Same(db, rank, a, b, n) && k in db.decls && RankOf(rank, k) < n
    ensures Same(db, rank, UnsetOne(db, a, k, user), UnsetOne(db, b, k, user), n)
  {
    hide Same, Ranked, Put, Flagged, Blocked;
    var s, t := Flagged(db, a, k, B(false), user), Flagged(db, b, k, B(false), user);
    SameFlaggedOff(db, rank, a, b, n, k, user);
    SameBlocked(db, rank, s, t, n, k, B(false));
    SamePut(db, rank, s, t, n, k, B(false));
  }

  lemma {:induction false} SameUnsetOthers(db: Db, rank: Ranks, a: State, b: State, n: int, key: Key, ms: seq<Key>,
                                           user: bool)
    requires Ranked(db, rank) && Same(db, rank, a, b, n) && key in db.decls && RankOf(rank, key) < n
    requires forall m :: m in ms ==> m in db.decls && RankOf(rank, m) < n
    ensures Same(db, rank, UnsetOthers(db, a, key, ms, user), UnsetOthers(db, b, key, ms, user), n)
    decreases |ms|
  {
    hide Same, Ranked, Put, UnsetOne;
    if ms != [] {
      if ms[0] == key {
        SameUnsetOthers(db, rank, a, b, n, key, ms[1..], user);
      } else {
        SameUnsetOne(db, rank, a, b, n, ms[0], user);
        var s, t := UnsetOne(db, a, ms[0], user), UnsetOne(db, b, ms[0], user);
        SameOpt(db, rank, s, t, n, ms[0]);
        SamePut(db, rank, s, t, n, key, B(false));
        SameUnsetOthers(db, rank, s, t, n, key, ms[1..], user);
      }
    }
  }
}
