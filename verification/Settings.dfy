/** What settings leave behind, one after the other. */
module Settings {
  import opened Wrappers
  import opened Options
  import opened Choices
  import opened Levels
  import opened Consistency
  import opened Effects
  import opened Propagation

  /** The value a setting's text stands for, if it stands for one. */
  function ValueFor(db: Db, x: Setting): Option<Value> {
    ToValue(DeclOf(db, x.key).datatype_, x.text)
  }

  /** A number may have a sign and leading zeros. */
  lemma SignsAndZeros(s: string)
    requires IsDigits(s)
    ensures ToInt("+" + s) == ToInt("0" + s) == ToInt(s) && ToInt(s).Some?
    ensures ToInt("-" + s) == Some(-ToInt(s).value)
  {
    hide Digits;
    assert ("+" + s)[1..] == s && ("-" + s)[1..] == s && forall i :: 0 < i <= |s| ==> ("0" + s)[i] == s[i - 1];
    LeadingZero(s);
  }

  lemma {:induction false} LeadingZero(s: string)
    requires IsDigits(s)
    ensures Digits("0" + s) == Digits(s)
  {
    assert forall i :: 0 < i <= |s| ==> ("0" + s)[i] == s[i - 1];
    var t := s[..|s| - 1];
    assert ("0" + s)[..|s|] == "0" + t;
    if t != "" {
      LeadingZero(t);
    } else {
      assert "0" + t == "0" && "0"[..0] == "" && Digits("0") == 0;
    }
  }

  predicate Converts(db: Db, x: Setting) {
    Settable(db, x.key) ==> ValueFor(db, x).Some?
  }

  /** From a to b the setting has been taken. */
  ghost predicate Taken(db: Db, rank: Ranks, a: State, b: State, x: Setting) {
    && Shape(db, b) && Converts(db, x) && Keeps(db, a, b, Loosened(db, x))
    && if Settable(db, x.key) then TakenAs(db, rank, a, b, x, ValueFor(db, x).value) else b == a
  }

  ghost predicate TakenAs(db: Db, rank: Ranks, a: State, b: State, x: Setting, v: Value) {
    && Same(db, rank, SetOwn(db, a, x.key, v, x.user), b, RankOf(rank, x.key) + 1)
    && Same(db, rank, a, b, RankOf(rank, x.key))
    && SameWishes(db, Flagged(db, a, x.key, v, x.user), b)
    && (x.user ==> Good(db, b, Defaulted(x.key)))
    && (x.user && (Free(db, x.key) || (v == B(true) && Good(db, a, Picked(x.key)))) ==> Good(db, b, Asked(x.key)))
  }

  /** The states between the settings, first and last included. */
  ghost predicate Trace(db: Db, rank: Ranks, tr: seq<State>, xs: seq<Setting>) {
    |tr| == |xs| + 1 && forall i :: 0 <= i < |xs| ==> Taken(db, rank, tr[i], tr[i + 1], xs[i])
  }

  lemma TraceStart(db: Db, rank: Ranks, a: State)
    ensures Trace(db, rank, [a], [])
  {
  }

  lemma TraceMore(db: Db, rank: Ranks, tr: seq<State>, xs: seq<Setting>, b: State, x: Setting)
    requires Trace(db, rank, tr, xs) && Taken(db, rank, tr[|xs|], b, x)
    ensures Trace(db, rank, tr + [b], xs + [x])
  {
    hide Taken;
    var t, y := tr + [b], xs + [x];
    forall i | 0 <= i < |y|
      ensures Taken(db, rank, t[i], t[i + 1], y[i])
    {
      if i < |xs| {
        assert t[i] == tr[i] && t[i + 1] == tr[i + 1] && y[i] == xs[i];
      } else {
        assert t[i] == tr[i] && t[i + 1] == b && y[i] == x;
      }
    }
  }

  lemma TraceLess(db: Db, rank: Ranks, tr: seq<State>, xs: seq<Setting>)
    requires Trace(db, rank, tr, xs) && xs != []
    ensures var n := |xs| - 1;
            Trace(db, rank, tr[..n + 1], xs[..n]) && Taken(db, rank, tr[n], tr[n + 1], xs[n])
  {
    hide Taken;
  }

  /** Nothing has been asked for. */
  ghost predicate Unasked(db: Db, st: State) {
    && (forall k :: OptOf(st, k).requested.None? && (Free(db, k) ==> !OptOf(st, k).userSet))
    && (forall g :: ChoiceOf(st, g).requested.None?)
  }

  lemma BlankIsUnasked(db: Db, st: State)
    requires Blank(db, st)
    ensures Unasked(db, st)
  {
    forall k
      ensures OptOf(st, k).requested.None? && !OptOf(st, k).userSet
    {
      if k !in db.decls {
        assert OptOf(st, k) == NO_OPT;
      }
    }
  }

  lemma StillUnasked(db: Db, a: State, b: State)
    requires Unasked(db, a) && SameWishes(db, a, b)
    ensures Unasked(db, b)
  {
    hide Free, OptOf, ChoiceOf;
  }

  /*** What is on record for an option ***/

  /** xs[j] is the user's last setting of k. */
  predicate IsLast(xs: seq<Setting>, k: Key, j: int) {
    && 0 <= j < |xs| && xs[j].user && xs[j].key == k
    && forall i :: j < i < |xs| ==> !(xs[i].user && xs[i].key == k)
  }

  predicate NeverSet(xs: seq<Setting>, k: Key) {
    forall x :: x in xs ==> !(x.user && x.key == k)
  }

  lemma StepRecords(db: Db, rank: Ranks, a: State, b: State, x: Setting, k: Key)
    requires Taken(db, rank, a, b, x) && Free(db, k)
    ensures if x.user && x.key == k && Settable(db, k)
            then OptOf(b, k).requested == ValueFor(db, x) && OptOf(b, k).userSet
            else OptOf(b, k).requested == OptOf(a, k).requested && OptOf(b, k).userSet == OptOf(a, k).userSet
  {
    hide Keeps, Same, Good, SetOwn, Shape, ToValue;
  }

  /** The user's last setting of an option outside choices is on record, and that the user
      set it; without one nothing of it has changed. */
  lemma {:induction false} LastIsOnRecord(db: Db, rank: Ranks, tr: seq<State>, xs: seq<Setting>, k: Key)
    requires Trace(db, rank, tr, xs) && Free(db, k) && Settable(db, k)
    ensures forall j :: IsLast(xs, k, j) ==>
              OptOf(tr[|xs|], k).requested == ValueFor(db, xs[j]) && OptOf(tr[|xs|], k).userSet
    ensures NeverSet(xs, k) ==>
              && OptOf(tr[|xs|], k).requested == OptOf(tr[0], k).requested
              && OptOf(tr[|xs|], k).userSet == OptOf(tr[0], k).userSet
    decreases |xs|
  {
    hide Taken, OptOf, ValueFor, Free, Settable;
    if xs != [] {
      var n := |xs| - 1;
      TraceLess(db, rank, tr, xs);
      assert tr[..n + 1][n] == tr[n] && tr[..n + 1][0] == tr[0];
      LastIsOnRecord(db, rank, tr[..n + 1], xs[..n], k);
      StepRecords(db, rank, tr[n], tr[n + 1], xs[n], k);
      forall j | IsLast(xs, k, j)
        ensures j == n || (IsLast(xs[..n], k, j) && xs[..n][j] == xs[j])
        ensures OptOf(tr[|xs|], k).requested == ValueFor(db, xs[j]) && OptOf(tr[|xs|], k).userSet
      {
        LastEarlier(xs, k, j);
      }
      if NeverSet(xs, k) {
        NeverEarlier(xs, k);
      }
    }
  }

  /** Of an option that cannot be set nothing changes. */
  lemma {:induction false} NoRecord(db: Db, rank: Ranks, tr: seq<State>, xs: seq<Setting>, k: Key)
    requires Trace(db, rank, tr, xs) && Free(db, k) && !Settable(db, k)
    ensures OptOf(tr[|xs|], k).requested == OptOf(tr[0], k).requested
    ensures OptOf(tr[|xs|], k).userSet == OptOf(tr[0], k).userSet
    decreases |xs|
  {
    hide Taken, OptOf, ValueFor, Free, Settable;
    if xs != [] {
      var n := |xs| - 1;
      TraceLess(db, rank, tr, xs);
      assert tr[..n + 1][n] == tr[n] && tr[..n + 1][0] == tr[0];
      NoRecord(db, rank, tr[..n + 1], xs[..n], k);
      StepRecords(db, rank, tr[n], tr[n + 1], xs[n], k);
    }
  }

  lemma LastEarlier(xs: seq<Setting>, k: Key, j: int)
    requires IsLast(xs, k, j)
    ensures var n := |xs| - 1;
            if xs[n].user && xs[n].key == k then j == n else j < n && IsLast(xs[..n], k, j) && xs[..n][j] == xs[j]
  {
  }

  lemma NeverEarlier(xs: seq<Setting>, k: Key)
    requires NeverSet(xs, k) && xs != []
    ensures NeverSet(xs[..|xs| - 1], k) && !(xs[|xs| - 1].user && xs[|xs| - 1].key == k)
  {
    assert xs[|xs| - 1] in xs;
  }

  /** The user turns on a member of the choice. */
  predicate SaysYes(db: Db, x: Setting, g: Group) {
    x.user && Settable(db, x.key) && DeclOf(db, x.key).group == Some(g) && ValueFor(db, x) == Some(B(true))
  }

  predicate IsLastYes(db: Db, xs: seq<Setting>, g: Group, j: int) {
    0 <= j < |xs| && SaysYes(db, xs[j], g) && forall i :: j < i < |xs| ==> !SaysYes(db, xs[i], g)
  }

  predicate NeverYes(db: Db, xs: seq<Setting>, g: Group) {
    forall x :: x in xs ==> !SaysYes(db, x, g)
  }

  lemma StepAsks(db: Db, rank: Ranks, a: State, b: State, x: Setting, g: Group)
    requires Taken(db, rank, a, b, x)
    ensures ChoiceOf(b, g).requested == if SaysYes(db, x, g) then Some(x.key) else ChoiceOf(a, g).requested
  {
    hide Keeps, Same, Good, SetOwn, Shape, ToValue;
  }

  /** A choice has the member on record to which the user last said y. */
  lemma {:induction false} LastYesIsOnRecord(db: Db, rank: Ranks, tr: seq<State>, xs: seq<Setting>, g: Group)
    requires Trace(db, rank, tr, xs)
    ensures forall j :: IsLastYes(db, xs, g, j) ==> ChoiceOf(tr[|xs|], g).requested == Some(xs[j].key)
    ensures NeverYes(db, xs, g) ==> ChoiceOf(tr[|xs|], g).requested == ChoiceOf(tr[0], g).requested
    decreases |xs|
  {
    hide Taken, ChoiceOf, SaysYes;
    if xs != [] {
      var n := |xs| - 1;
      TraceLess(db, rank, tr, xs);
      assert tr[..n + 1][n] == tr[n] && tr[..n + 1][0] == tr[0];
      LastYesIsOnRecord(db, rank, tr[..n + 1], xs[..n], g);
      StepAsks(db, rank, tr[n], tr[n + 1], xs[n], g);
      forall j | IsLastYes(db, xs, g, j)
        ensures ChoiceOf(tr[|xs|], g).requested == Some(xs[j].key)
      {
        if j < n {
          assert !SaysYes(db, xs[n], g);
          assert IsLastYes(db, xs[..n], g, j) && xs[..n][j] == xs[j];
        }
      }
      assert xs[n] in xs;
    }
  }

  /*** What is met ***/

  /** After xs[j] no setting restores a value of k or, in a choice, of another member. */
  predicate StaysAsked(db: Db, xs: seq<Setting>, k: Key, j: int) {
    forall i :: 0 <= j < i < |xs| ==> xs[i].user || (xs[i].key != k && !SameGroup(db, k, xs[i].key))
  }

  /** What was asked with the j-th setting stays good. */
  lemma {:induction false} StaysGood(db: Db, rank: Ranks, tr: seq<State>, xs: seq<Setting>, f: Fact, j: int)
    requires Trace(db, rank, tr, xs) && 0 <= j <= |xs| && Good(db, tr[j], f)
    requires forall i :: j <= i < |xs| ==> !Loosens(db, xs[i], f)
    ensures Good(db, tr[|xs|], f)
    decreases |xs| - j
  {
    hide Good, Loosens;
    if j < |xs| {
      assert Taken(db, rank, tr[j], tr[j + 1], xs[j]);
      assert f !in Loosened(db, xs[j]);
      hide Taken;
      StaysGood(db, rank, tr, xs, f, j + 1);
    }
  }

  lemma AskedStays(db: Db, xs: seq<Setting>, k: Key, j: int)
    requires StaysAsked(db, xs, k, j) && 0 <= j
    ensures forall i :: j < i < |xs| ==> !Loosens(db, xs[i], Asked(k))
  {
    hide SameGroup;
  }

  /** An option outside choices that nothing selects meets the text the user gave last, as
      far as its dependencies allow, if nothing it depends on can be displaced. */
  lemma LastTextIsMet(db: Db, rank: Ranks, tr: seq<State>, xs: seq<Setting>, k: Key, j: int)
    requires Trace(db, rank, tr, xs) && Free(db, k) && Settable(db, k) && Steady(db, Asked(k))
    requires IsLast(xs, k, j) && StaysAsked(db, xs, k, j) && OptOf(tr[|xs|], k).selectedBy == {}
    ensures Meets(db, tr[|xs|], k, ValueFor(db, xs[j]))
  {
    hide Steady, Meets, ValueFor, Rivalled, Free, Settable;
    LastIsOnRecord(db, rank, tr, xs, k);
    TakenAsksFor(db, rank, tr[j], tr[j + 1], xs[j]);
    AskedStays(db, xs, k, j);
    StaysGood(db, rank, tr, xs, Asked(k), j + 1);
  }

  lemma TakenAsksFor(db: Db, rank: Ranks, a: State, b: State, x: Setting)
    requires Taken(db, rank, a, b, x) && x.user && Settable(db, x.key)
    ensures Free(db, x.key) ==> Good(db, b, Asked(x.key))
    ensures ValueFor(db, x) == Some(B(true)) && Good(db, a, Picked(x.key)) ==> Good(db, b, Asked(x.key))
  {
    hide Good, Same, Keeps, SetOwn, Shape, SameWishes, ToValue;
  }

  /** A member to which the user last said y is the one on, if it can be enabled and no other
      member can be selected. */
  lemma LastYesIsOn(db: Db, rank: Ranks, tr: seq<State>, xs: seq<Setting>, g: Group, j: int)
    requires Sound(db) && Trace(db, rank, tr, xs) && forall f: Fact :: Good(db, tr[0], f)
    requires IsLastYes(db, xs, g, j) && StaysAsked(db, xs, xs[j].key, j)
    requires !Rivalled(db, xs[j].key) && Steady(db, Asked(xs[j].key)) && CanEnable(db, tr[|xs|], xs[j].key)
    ensures xs[j].key in MembersOf(db, g)
    ensures forall m :: m in MembersOf(db, g) ==> (On(tr[|xs|], m) <==> m == xs[j].key)
  {
    hide Sound, Steady, Rivalled, CanEnable, Good, Own;
    var k, last := xs[j].key, tr[|xs|];
    YesIsMember(db, xs[j], g);
    LastYesIsOnRecord(db, rank, tr, xs, g);
    EarlierGood(db, rank, tr, xs, Picked(k), j);
    assert Taken(db, rank, tr[j], tr[j + 1], xs[j]);
    TakenAsksFor(db, rank, tr[j], tr[j + 1], xs[j]);
    AskedStays(db, xs, k, j);
    StaysGood(db, rank, tr, xs, Asked(k), j + 1);
    EarlierGood(db, rank, tr, xs, Exclusive(g), |xs|);
    OnlyTheAsked(db, last, g, k);
  }

  lemma YesIsMember(db: Db, x: Setting, g: Group)
    requires Sound(db) && SaysYes(db, x, g)
    ensures x.key in MembersOf(db, g) && x.user && Settable(db, x.key) && ValueFor(db, x) == Some(B(true))
  {
    hide Sound;
    GroupIsKnown(db, x.key);
  }

  /** Facts that no setting loosens are good all along. */
  lemma {:induction false} EarlierGood(db: Db, rank: Ranks, tr: seq<State>, xs: seq<Setting>, f: Fact, j: int)
    requires Trace(db, rank, tr, xs) && Good(db, tr[0], f) && 0 <= j <= |xs| && !f.Unset? && !f.Asked? && !f.Defaulted?
    ensures Good(db, tr[j], f)
    decreases j
  {
    hide Good;
    if j > 0 {
      EarlierGood(db, rank, tr, xs, f, j - 1);
      assert Taken(db, rank, tr[j - 1], tr[j], xs[j - 1]);
      assert f !in Loosened(db, xs[j - 1]);
    }
  }

  lemma OnlyTheAsked(db: Db, st: State, g: Group, k: Key)
    requires Sound(db) && k in MembersOf(db, g) && !Rivalled(db, k) && Steady(db, Asked(k)) && CanEnable(db, st, k)
    requires Good(db, st, Asked(k)) && Good(db, st, Exclusive(g)) && ChoiceOf(st, g).requested == Some(k)
    ensures forall m :: m in MembersOf(db, g) ==> (On(st, m) <==> m == k)
  {
    hide Sound, Steady, Rivalled, CanEnable;
    SameChoice(db, g, k, k);
  }

  /** Right after it has been set, by the user or to restore a value, an option outside
      choices that nothing selects meets the text. */
  lemma NowMet(db: Db, rank: Ranks, a: State, b: State, x: Setting)
    requires Sound(db) && Ranked(db, rank) && Shape(db, a) && Taken(db, rank, a, b, x)
    requires Settable(db, x.key) && Free(db, x.key) && OptOf(a, x.key).selectedBy == {}
    ensures Meets(db, b, x.key, ValueFor(db, x))
  {
    hide Sound, Ranked, Shape, Keeps, Good, SetOwn, Meets, SameWishes, RankOf, ToValue;
    var v := ValueFor(db, x).value;
    var r := SetOwn(db, a, x.key, v, x.user);
    SetOwnMeets(db, rank, a, x.key, v, x.user, Some(v));
    assert Same(db, rank, r, b, RankOf(rank, x.key) + 1);
    hide Same;
    SameOpt(db, rank, r, b, RankOf(rank, x.key) + 1, x.key);
    SameSight(db, rank, r, b, RankOf(rank, x.key) + 1, x.key);
    SameMeets(db, r, b, x.key, Some(v));
  }

  /*** Whole sequences ***/

  /** What the user asked for is on record: for an option outside choices the last text, for
      a choice the member to which the user last said y. Nothing else is. */
  ghost predicate OnRecord(db: Db, st: State, xs: seq<Setting>) {
    (forall k :: Free(db, k) ==> OptionOnRecord(db, st, xs, k)) && forall g :: ChoiceOnRecord(db, st, xs, g)
  }

  ghost predicate OptionOnRecord(db: Db, st: State, xs: seq<Setting>, k: Key) {
    && (Settable(db, k) ==> forall j :: IsLast(xs, k, j) ==>
          OptOf(st, k).requested == ValueFor(db, xs[j]) && OptOf(st, k).userSet)
    && (!Settable(db, k) || NeverSet(xs, k) ==> OptOf(st, k).requested.None? && !OptOf(st, k).userSet)
  }

  ghost predicate ChoiceOnRecord(db: Db, st: State, xs: seq<Setting>, g: Group) {
    && (forall j :: IsLastYes(db, xs, g, j) ==> ChoiceOf(st, g).requested == Some(xs[j].key))
    && (NeverYes(db, xs, g) ==> ChoiceOf(st, g).requested.None?)
  }

  /** What the user asked for last is met. For an option outside choices that nothing
      selects, that is as far as its dependencies allow. For a choice, the member is the one
      on if it can be enabled and no other can be selected. In both cases no setting restores
      a value later, and nothing that the option depends on can be displaced. */
  ghost predicate LastAreMet(db: Db, st: State, xs: seq<Setting>) {
    (forall k :: Free(db, k) ==> TextIsMet(db, st, xs, k)) && forall g :: YesIsMet(db, st, xs, g)
  }

  ghost predicate TextIsMet(db: Db, st: State, xs: seq<Setting>, k: Key) {
    Settable(db, k) && Steady(db, Asked(k)) && OptOf(st, k).selectedBy == {} ==>
      forall j :: IsLast(xs, k, j) && StaysAsked(db, xs, k, j) ==> Meets(db, st, k, ValueFor(db, xs[j]))
  }

  ghost predicate YesIsMet(db: Db, st: State, xs: seq<Setting>, g: Group) {
    forall j :: IsLastYes(db, xs, g, j) ==>
      var k := xs[j].key;
      StaysAsked(db, xs, k, j) && !Rivalled(db, k) && Steady(db, Asked(k)) && CanEnable(db, st, k) ==>
        forall m :: m in MembersOf(db, g) ==> (On(st, m) <==> m == k)
  }

  lemma AllOnRecord(db: Db, rank: Ranks, tr: seq<State>, xs: seq<Setting>)
    requires Trace(db, rank, tr, xs) && Unasked(db, tr[0])
    ensures OnRecord(db, tr[|xs|], xs)
  {
    hide Taken, OptOf, ChoiceOf, IsLast, IsLastYes, NeverSet, NeverYes, Settable, Free, ValueFor;
    forall k | Free(db, k)
      ensures OptionOnRecord(db, tr[|xs|], xs, k)
    {
      if Settable(db, k) {
        LastIsOnRecord(db, rank, tr, xs, k);
      } else {
        NoRecord(db, rank, tr, xs, k);
      }
    }
    forall g
      ensures ChoiceOnRecord(db, tr[|xs|], xs, g)
    {
      LastYesIsOnRecord(db, rank, tr, xs, g);
    }
  }

  lemma AllAreMet(db: Db, rank: Ranks, tr: seq<State>, xs: seq<Setting>)
    requires Sound(db) && Trace(db, rank, tr, xs) && forall f: Fact :: Good(db, tr[0], f)
    ensures LastAreMet(db, tr[|xs|], xs)
  {
    hide Sound, Taken, OptOf, Settable, Free, ValueFor, Good, Steady, Rivalled, StaysAsked, CanEnable, Meets;
    forall k | Free(db, k)
      ensures TextIsMet(db, tr[|xs|], xs, k)
    {
      if Settable(db, k) && Steady(db, Asked(k)) && OptOf(tr[|xs|], k).selectedBy == {} {
        forall j | IsLast(xs, k, j) && StaysAsked(db, xs, k, j)
          ensures Meets(db, tr[|xs|], k, ValueFor(db, xs[j]))
        {
          LastTextIsMet(db, rank, tr, xs, k, j);
        }
      }
    }
    forall g, j | IsLastYes(db, xs, g, j) && StaysAsked(db, xs, xs[j].key, j) && !Rivalled(db, xs[j].key) &&
                  Steady(db, Asked(xs[j].key)) && CanEnable(db, tr[|xs|], xs[j].key)
      ensures forall m :: m in MembersOf(db, g) ==> (On(tr[|xs|], m) <==> m == xs[j].key)
    {
      LastYesIsOn(db, rank, tr, xs, g, j);
    }
  }
}
