/** What the operators of Mconfig expressions compute, and which default an option has. */
module Evaluation {
  import opened Wrappers
  import opened Options

  /*** Logic ***/

  predicate IsBool(st: State, c: Cond) {
    CondValue(st, c).Some? && CondValue(st, c).value.B?
  }

  /** On booleans the operators are those of logic. */
  lemma LogicHolds(st: State, l: Cond, r: Cond)
    requires IsBool(st, l) && IsBool(st, r)
    ensures IsBool(st, And(l, r)) && IsBool(st, Or(l, r)) && IsBool(st, Not(l))
    ensures Holds(st, And(l, r)) <==> Holds(st, l) && Holds(st, r)
    ensures Holds(st, Or(l, r)) <==> Holds(st, l) || Holds(st, r)
    ensures Holds(st, Not(l)) <==> !Holds(st, l)
  {
    var a, b := CondValue(st, l), CondValue(st, r);
    assert a == Some(B(a.value.b)) && b == Some(B(b.value.b));
  }

  /** A negation takes zero and the empty text for false. */
  lemma NotOfOthers(st: State, c: Cond, i: int, s: string)
    ensures CondValue(st, c) == Some(I(i)) ==> (Holds(st, Not(c)) <==> i == 0)
    ensures CondValue(st, c) == Some(S(s)) ==> (Holds(st, Not(c)) <==> |s| == 0)
  {
  }

  /** Numbers and texts joined by a logical operator give one of the two, which is no
      condition that holds. */
  lemma LogicOfOthers(st: State, l: Cond, r: Cond, v: Value, w: Value)
    requires CondValue(st, l) == Some(v) && CondValue(st, r) == Some(w) && SameKind(v, w) && !v.B?
    ensures CondValue(st, And(l, r)) in {Some(v), Some(w)} && CondValue(st, Or(l, r)) in {Some(v), Some(w)}
    ensures (v == I(0) || v == S("")) ==> CondValue(st, And(l, r)) == Some(v) && CondValue(st, Or(l, r)) == Some(w)
    ensures v != I(0) && v != S("") ==> CondValue(st, And(l, r)) == Some(w) && CondValue(st, Or(l, r)) == Some(v)
    ensures !Holds(st, And(l, r)) && !Holds(st, Or(l, r))
  {
  }

  /** Operands of different kinds make every operator but a negation false. */
  lemma MixedIsFalse(st: State, l: Cond, r: Cond, op: CmpOp)
    requires CondValue(st, l).Some? && CondValue(st, r).Some?
    requires !SameKind(CondValue(st, l).value, CondValue(st, r).value)
    ensures CondValue(st, And(l, r)) == CondValue(st, Or(l, r)) == CondValue(st, Cmp(op, l, r)) == Some(B(false))
    ensures !Holds(st, And(l, r)) && !Holds(st, Or(l, r)) && !Holds(st, Cmp(op, l, r))
  {
  }

  /** An error anywhere makes the whole condition false. */
  lemma ErrorIsFalse(st: State, l: Cond, r: Cond, op: CmpOp)
    requires CondValue(st, l).None? || CondValue(st, r).None?
    ensures !Holds(st, And(l, r)) && !Holds(st, Or(l, r)) && !Holds(st, Cmp(op, l, r))
    ensures CondValue(st, l).None? ==> !Holds(st, Not(l)) && !Holds(st, l)
  {
  }

  /*** Comparisons ***/

  lemma NumbersCompare(st: State, l: Cond, r: Cond, a: int, b: int)
    requires CondValue(st, l) == Some(I(a)) && CondValue(st, r) == Some(I(b))
    ensures Holds(st, Cmp(Eq, l, r)) <==> a == b
    ensures Holds(st, Cmp(Ne, l, r)) <==> a != b
    ensures Holds(st, Cmp(Lt, l, r)) <==> a < b
    ensures Holds(st, Cmp(Le, l, r)) <==> a <= b
    ensures Holds(st, Cmp(Gt, l, r)) <==> a > b
    ensures Holds(st, Cmp(Ge, l, r)) <==> a >= b
  {
  }

  /** False is less than true. */
  lemma BoolsCompare(st: State, l: Cond, r: Cond)
    requires IsBool(st, l) && IsBool(st, r)
    ensures Holds(st, Cmp(Eq, l, r)) <==> (Holds(st, l) <==> Holds(st, r))
    ensures Holds(st, Cmp(Ne, l, r)) <==> (Holds(st, l) <==> !Holds(st, r))
    ensures Holds(st, Cmp(Lt, l, r)) <==> !Holds(st, l) && Holds(st, r)
    ensures Holds(st, Cmp(Le, l, r)) <==> !Holds(st, l) || Holds(st, r)
    ensures Holds(st, Cmp(Gt, l, r)) <==> Holds(st, l) && !Holds(st, r)
    ensures Holds(st, Cmp(Ge, l, r)) <==> Holds(st, l) || !Holds(st, r)
  {
    var a, b := CondValue(st, l), CondValue(st, r);
    assert a == Some(B(a.value.b)) && b == Some(B(b.value.b));
  }

  /** At n, a ends or has the lesser character, and before n the two agree. */
  predicate DiffersAt(a: string, b: string, n: int) {
    0 <= n <= |a| && n < |b| && a[..n] == b[..n] && (n < |a| ==> a[n] < b[n])
  }

  /** The order of texts by their first difference. */
  ghost predicate Precedes(a: string, b: string) {
    exists n :: DiffersAt(a, b, n)
  }

  lemma {:induction false} LessIsPrecedes(a: string, b: string)
    ensures StringLess(a, b) <==> Precedes(a, b)
  {
    if b == "" {
    } else if a == "" || a[0] < b[0] {
      assert DiffersAt(a, b, 0);
    } else {
      LessIsPrecedes(a[1..], b[1..]);
      if a[0] == b[0] && StringLess(a[1..], b[1..]) {
        var n :| DiffersAt(a[1..], b[1..], n);
        assert a == [a[0]] + a[1..] && b == [b[0]] + b[1..];
        assert a[..n + 1] == [a[0]] + a[1..][..n] && b[..n + 1] == [b[0]] + b[1..][..n];
        assert DiffersAt(a, b, n + 1);
      }
      if n :| DiffersAt(a, b, n) {
        DiffersLater(a, b, n);
      }
    }
  }

  lemma DiffersLater(a: string, b: string, n: int)
    requires DiffersAt(a, b, n) && a != "" && a[0] >= b[0]
    ensures n > 0 && a[0] == b[0] && DiffersAt(a[1..], b[1..], n - 1)
  {
    assert a[..n][0] == b[..n][0];
    assert a[..n][1..] == a[1..][..n - 1] && b[..n][1..] == b[1..][..n - 1];
  }

  lemma TextsCompare(st: State, l: Cond, r: Cond, a: string, b: string)
    requires CondValue(st, l) == Some(S(a)) && CondValue(st, r) == Some(S(b))
    ensures Holds(st, Cmp(Eq, l, r)) <==> a == b
    ensures Holds(st, Cmp(Ne, l, r)) <==> a != b
    ensures Holds(st, Cmp(Lt, l, r)) <==> Precedes(a, b)
    ensures Holds(st, Cmp(Le, l, r)) <==> a == b || Precedes(a, b)
    ensures Holds(st, Cmp(Gt, l, r)) <==> Precedes(b, a)
    ensures Holds(st, Cmp(Ge, l, r)) <==> a == b || Precedes(b, a)
  {
    LessIsPrecedes(a, b);
    LessIsPrecedes(b, a);
    OneOfThree(a, b);
  }

  /** Of two texts exactly one precedes the other, unless they are the same. */
  lemma {:induction false} OneOfThree(a: string, b: string)
    ensures !Precedes(a, a)
    ensures a == b || Precedes(a, b) || Precedes(b, a)
    ensures !(Precedes(a, b) && Precedes(b, a))
  {
    hide Precedes;
    LessIsPrecedes(a, a);
    LessIsPrecedes(a, b);
    LessIsPrecedes(b, a);
    NotLessItself(a);
    if a != "" && b != "" && a[0] == b[0] {
      LessIsPrecedes(a[1..], b[1..]);
      LessIsPrecedes(b[1..], a[1..]);
      OneOfThree(a[1..], b[1..]);
      assert a == [a[0]] + a[1..] && b == [b[0]] + b[1..];
    }
  }

  lemma {:induction false} NotLessItself(a: string)
    ensures !StringLess(a, a)
  {
    if a != "" {
      NotLessItself(a[1..]);
    }
  }

  lemma PrecedesOn(a: string, b: string, c: string)
    requires Precedes(a, b) && Precedes(b, c)
    ensures Precedes(a, c)
  {
    var n :| DiffersAt(a, b, n);
    var m :| DiffersAt(b, c, m);
    var k := if n < m then n else m;
    assert a[..n][..k] == a[..k] && b[..n][..k] == b[..k];
    assert b[..m][..k] == b[..k] && c[..m][..k] == c[..k];
    if n < m {
      assert b[..m][n] == b[n] && c[..m][n] == c[n];
    } else if m < n {
      assert a[..n][m] == a[m] && b[..n][m] == b[m];
    }
    assert DiffersAt(a, c, k);
  }

  /*** Expressions ***/

  lemma NumbersAdd(st: State, l: Expr, r: Expr, a: int, b: int)
    requires ExprValue(st, l) == Some(I(a)) && ExprValue(st, r) == Some(I(b))
    ensures ExprValue(st, Plus(l, r)) == ExprValue(st, Plus(r, l)) == Some(I(a + b))
    ensures ExprValue(st, Minus(Plus(l, r), r)) == ExprValue(st, Plus(Minus(l, r), r)) == ExprValue(st, l)
  {
  }

  lemma TextsJoin(st: State, l: Expr, r: Expr, a: string, b: string)
    requires ExprValue(st, l) == Some(S(a)) && ExprValue(st, r) == Some(S(b))
    ensures var t := ExprValue(st, Plus(l, r));
            t.Some? && t.value.S? && |t.value.s| == |a| + |b| && a <= t.value.s && t.value.s[|a|..] == b
    ensures ExprResult(st, Minus(l, r)) == S("")
  {
  }

  /** Booleans and operands of different kinds are errors, which give the empty text. */
  lemma BadSumIsEmpty(st: State, l: Expr, r: Expr, v: Value, w: Value)
    requires ExprValue(st, l) == Some(v) && ExprValue(st, r) == Some(w) && (v.B? || !SameKind(v, w))
    ensures ExprResult(st, Plus(l, r)) == ExprResult(st, Minus(l, r)) == S("")
    ensures ExprResult(st, l) == v && ExprResult(st, r) == w
  {
  }

  /** Constants stand for themselves and names for the values of options. */
  lemma NamesAndConstants(st: State, v: Value, k: Key)
    ensures ExprResult(st, Literal(v)) == v && ExprResult(st, Ident(k)) == OptOf(st, k).value
    ensures CondValue(st, Term(Literal(v))) == Some(v) && CondValue(st, Term(Ident(k))) == Some(OptOf(st, k).value)
  {
  }

  /** What an option may depend on: nothing; an option; either of two, or both; or one
      being off. */
  lemma DependsOn(db: Db, st: State, k: Key, a: Key, b: Key)
    requires OptOf(st, a).value.B? && OptOf(st, b).value.B?
    ensures var d := DeclOf(db, k).depends;
            var x, y := Term(Ident(a)), Term(Ident(b));
            && (d == None ==> CanEnable(db, st, k))
            && (d == Some(x) ==> (CanEnable(db, st, k) <==> On(st, a)))
            && (d == Some(Not(x)) ==> (CanEnable(db, st, k) <==> !On(st, a)))
            && (d == Some(Or(x, y)) ==> (CanEnable(db, st, k) <==> On(st, a) || On(st, b)))
            && (d == Some(And(x, y)) ==> (CanEnable(db, st, k) <==> On(st, a) && On(st, b)))
  {
    var x, y := Term(Ident(a)), Term(Ident(b));
    NamesAndConstants(st, B(true), a);
    NamesAndConstants(st, B(true), b);
    assert OptOf(st, a).value == B(OptOf(st, a).value.b) && OptOf(st, b).value == B(OptOf(st, b).value.b);
    LogicHolds(st, x, y);
  }

  /*** Defaults ***/

  /** The i-th conditional default is the first whose condition holds. */
  predicate IsFirstCase(st: State, cases: seq<(Cond, Expr)>, i: int) {
    0 <= i < |cases| && Holds(st, cases[i].0) && forall j :: 0 <= j < i ==> !Holds(st, cases[j].0)
  }

  predicate NoCase(st: State, cases: seq<(Cond, Expr)>) {
    forall j :: 0 <= j < |cases| ==> !Holds(st, cases[j].0)
  }

  /** An option has the first conditional default whose condition holds. If none does it
      has its plain default, and without one n, 0 or the empty text by its type. */
  lemma DefaultIs(db: Db, st: State, k: Key)
    ensures var d := DeclOf(db, k);
            && (forall i :: IsFirstCase(st, d.defaultCond, i) ==>
                  DefaultOf(db, st, k) == ExprResult(st, d.defaultCond[i].1))
            && (NoCase(st, d.defaultCond) && d.default.Some? ==>
                  DefaultOf(db, st, k) == ExprResult(st, d.default.value))
            && (NoCase(st, d.defaultCond) && d.default.None? ==>
                  && (d.datatype_ == BoolType ==> DefaultOf(db, st, k) == B(false))
                  && (d.datatype_ == IntType ==> DefaultOf(db, st, k) == I(0))
                  && (d.datatype_ == StringType ==> DefaultOf(db, st, k) == S("")))
            && (NoCase(st, d.defaultCond) || exists i :: IsFirstCase(st, d.defaultCond, i))
  {
    var d := DeclOf(db, k);
    forall i | IsFirstCase(st, d.defaultCond, i)
      ensures DefaultOf(db, st, k) == ExprResult(st, d.defaultCond[i].1)
    {
      FirstCaseCounts(st, d.defaultCond, d.default, d.datatype_, i);
    }
    if NoCase(st, d.defaultCond) {
      NoCaseCounts(st, d.defaultCond, d.default, d.datatype_);
    } else {
      SomeCase(st, d.defaultCond);
    }
  }

  lemma {:induction false} FirstCaseCounts(st: State, cases: seq<(Cond, Expr)>, default: Option<Expr>, t: Type, i: int)
    requires IsFirstCase(st, cases, i)
    ensures DefaultFrom(st, cases, default, t) == ExprResult(st, cases[i].1)
    decreases |cases|
  {
    hide Holds;
    if i > 0 {
      assert !Holds(st, cases[0].0);
      FirstCaseCounts(st, cases[1..], default, t, i - 1);
    }
  }

  lemma {:induction false} NoCaseCounts(st: State, cases: seq<(Cond, Expr)>, default: Option<Expr>, t: Type)
    requires NoCase(st, cases)
    ensures DefaultFrom(st, cases, default, t) == DefaultFrom(st, [], default, t)
  {
    hide Holds;
    if cases != [] {
      assert !Holds(st, cases[0].0);
      NoCaseCounts(st, cases[1..], default, t);
    }
  }

  lemma {:induction false} SomeCase(st: State, cases: seq<(Cond, Expr)>)
    requires !NoCase(st, cases)
    ensures exists i :: IsFirstCase(st, cases, i)
  {
    hide Holds;
    if Holds(st, cases[0].0) {
      assert IsFirstCase(st, cases, 0);
    } else {
      var rest := cases[1..];
      var j :| 0 <= j < |cases| && Holds(st, cases[j].0);
      assert rest[j - 1] == cases[j];
      SomeCase(st, rest);
      var i :| IsFirstCase(st, rest, i);
      forall m | 0 <= m < i + 1
        ensures !Holds(st, cases[m].0)
      {
        if m > 0 {
          assert rest[m - 1] == cases[m];
        }
      }
      assert IsFirstCase(st, cases, i + 1);
    }
  }
}
