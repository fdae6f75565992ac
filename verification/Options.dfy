/** Mconfig options: what the option database declares, the values options hold, and the
    evaluation of expressions over them. */
module Options {
  import opened Wrappers

  type Key = string
  type Group = int

  datatype Value = B(b: bool) | I(i: int) | S(s: string)

  datatype Expr =
    | Literal(value: Value)
    | Ident(key: Key)
    | Plus(left: Expr, right: Expr)
    | Minus(left: Expr, right: Expr)

  datatype CmpOp = Eq | Ne | Gt | Ge | Lt | Le

  datatype Cond =
    | Term(expr: Expr)
    | Not(cond: Cond)
    | And(left: Cond, right: Cond)
    | Or(left: Cond, right: Cond)
    | Cmp(op: CmpOp, left: Cond, right: Cond)

  datatype Type = BoolType | IntType | StringType

  /** What the database says about an option. Group is the choice group it belongs to. */
  datatype Decl = Decl(
    datatype_: Type,
    prompted: bool,
    depends: Option<Cond>,
    defaultCond: seq<(Cond, Expr)>,
    default: Option<Expr>,
    select: seq<Key>,
    selectIf: seq<(Key, Cond)>,
    group: Option<Group>,
    position: int)

  /** The options, the members of each choice group, and the order options are listed in. */
  datatype Db = Db(decls: map<Key, Decl>, members: map<Group, seq<Key>>, order: seq<Key>)

  /** The changing part of an option and of a choice group. */
  datatype Opt = Opt(value: Value, selectedBy: set<Key>, userSet: bool, requested: Option<Value>)

  datatype Choice = Choice(selected: Option<Key>, requested: Option<Key>)

  datatype State = State(opts: map<Key, Opt>, choices: map<Group, Choice>)

  const NO_OPT := Opt(B(false), {}, false, None)
  const NO_CHOICE := Choice(None, None)
  const NO_DECL := Decl(BoolType, false, None, [], None, [], [], None, 0)

  function OptOf(st: State, k: Key): Opt {
    if k in st.opts then st.opts[k] else NO_OPT
  }

  function ValueOf(st: State, k: Key): Value {
    OptOf(st, k).value
  }

  predicate On(st: State, k: Key) {
    ValueOf(st, k) == B(true)
  }

  function ChoiceOf(st: State, g: Group): Choice {
    if g in st.choices then st.choices[g] else NO_CHOICE
  }

  function DeclOf(db: Db, k: Key): Decl {
    if k in db.decls then db.decls[k] else NO_DECL
  }

  function MembersOf(db: Db, g: Group): seq<Key> {
    if g in db.members then db.members[g] else []
  }

  /*** Evaluation ***/

  /** None stands for a type error. */
  function ExprValue(st: State, e: Expr): Option<Value> {
    match e
    case Literal(v) => Some(v)
    case Ident(k) => Some(ValueOf(st, k))
    case Plus(l, r) =>
      (match (ExprValue(st, l), ExprValue(st, r))
       case (Some(I(a)), Some(I(b))) => Some(I(a + b))
       case (Some(S(a)), Some(S(b))) => Some(S(a + b))
       case _ => None)
    case Minus(l, r) =>
      (match (ExprValue(st, l), ExprValue(st, r))
       case (Some(I(a)), Some(I(b))) => Some(I(a - b))
       case _ => None)
  }

  /** A type error is reported and gives the empty string. */
  function ExprResult(st: State, e: Expr): Value {
    match ExprValue(st, e)
    case Some(v) => v
    case None => S("")
  }

  predicate Truthy(v: Value) {
    match v
    case B(b) => b
    case I(i) => i != 0
    case S(s) => s != ""
  }

  predicate SameKind(v: Value, w: Value) {
    (v.B? && w.B?) || (v.I? && w.I?) || (v.S? && w.S?)
  }

  predicate StringLess(a: string, b: string) {
    b != [] && (a == [] || a[0] < b[0] || (a[0] == b[0] && StringLess(a[1..], b[1..])))
  }

  predicate Less(v: Value, w: Value) {
    match (v, w)
    case (B(a), B(b)) => !a && b
    case (I(a), I(b)) => a < b
    case (S(a), S(b)) => StringLess(a, b)
    case _ => false
  }

  predicate Compare(op: CmpOp, v: Value, w: Value) {
    match op
    case Eq => v == w
    case Ne => v != w
    case Gt => Less(w, v)
    case Ge => !Less(v, w)
    case Lt => Less(v, w)
    case Le => !Less(w, v)
  }

  /** Operands of different kinds make any condition but a negation false. */
  function CondValue(st: State, c: Cond): Option<Value> {
    match c
    case Term(e) => ExprValue(st, e)
    case Not(d) =>
      (match CondValue(st, d)
       case Some(v) => Some(B(!Truthy(v)))
       case None => None)
    case And(l, r) =>
      (match (CondValue(st, l), CondValue(st, r))
       case (Some(v), Some(w)) => Some(if !SameKind(v, w) then B(false) else if Truthy(v) then w else v)
       case _ => None)
    case Or(l, r) =>
      (match (CondValue(st, l), CondValue(st, r))
       case (Some(v), Some(w)) => Some(if !SameKind(v, w) then B(false) else if Truthy(v) then v else w)
       case _ => None)
    case Cmp(op, l, r) =>
      (match (CondValue(st, l), CondValue(st, r))
       case (Some(v), Some(w)) => Some(B(SameKind(v, w) && Compare(op, v, w)))
       case _ => None)
  }

  /** Type errors and results that are no booleans count as false. */
  predicate Holds(st: State, c: Cond) {
    CondValue(st, c) == Some(B(true))
  }

  predicate CanEnable(db: Db, st: State, k: Key) {
    DeclOf(db, k).depends.None? || Holds(st, DeclOf(db, k).depends.value)
  }

  /*** The identifiers of an expression ***/

  function ExprKeys(e: Expr): set<Key> {
    match e
    case Literal(_) => {}
    case Ident(k) => {k}
    case Plus(l, r) => ExprKeys(l) + ExprKeys(r)
    case Minus(l, r) => ExprKeys(l) + ExprKeys(r)
  }

  function CondKeys(c: Cond): set<Key> {
    match c
    case Term(e) => ExprKeys(e)
    case Not(d) => CondKeys(d)
    case And(l, r) => CondKeys(l) + CondKeys(r)
    case Or(l, r) => CondKeys(l) + CondKeys(r)
    case Cmp(_, l, r) => CondKeys(l) + CondKeys(r)
  }

  ghost predicate Agree(a: State, b: State, keys: set<Key>) {
    forall k :: k in keys ==> ValueOf(a, k) == ValueOf(b, k)
  }

  /** An expression only looks at the options it names. */
  lemma {:induction false} ExprFrame(a: State, b: State, e: Expr)
    requires Agree(a, b, ExprKeys(e))
    ensures ExprValue(a, e) == ExprValue(b, e)
  {
    match e
    case Literal(_) =>
    case Ident(k) =>
    case Plus(l, r) =>
      ExprFrame(a, b, l);
      ExprFrame(a, b, r);
    case Minus(l, r) =>
      ExprFrame(a, b, l);
      ExprFrame(a, b, r);
  }

  lemma {:induction false} CondFrame(a: State, b: State, c: Cond)
    requires Agree(a, b, CondKeys(c))
    ensures CondValue(a, c) == CondValue(b, c)
  {
    match c
    case Term(e) => ExprFrame(a, b, e);
    case Not(d) => CondFrame(a, b, d);
    case And(l, r) =>
      CondFrame(a, b, l);
      CondFrame(a, b, r);
    case Or(l, r) =>
      CondFrame(a, b, l);
      CondFrame(a, b, r);
    case Cmp(_, l, r) =>
      CondFrame(a, b, l);
      CondFrame(a, b, r);
  }

  /*** Defaults ***/

  function DependsKeys(db: Db, k: Key): set<Key> {
    match DeclOf(db, k).depends
    case None => {}
    case Some(c) => CondKeys(c)
  }

  function CasesKeys(cases: seq<(Cond, Expr)>): set<Key> {
    if cases == [] then {}
    else CondKeys(cases[0].0) + ExprKeys(cases[0].1) + CasesKeys(cases[1..])
  }

  function DefaultKeys(db: Db, k: Key): set<Key> {
    CasesKeys(DeclOf(db, k).defaultCond) +
    match DeclOf(db, k).default
    case None => {}
    case Some(e) => ExprKeys(e)
  }

  function Zero(t: Type): Value {
    match t
    case BoolType => B(false)
    case IntType => I(0)
    case StringType => S("")
  }

  /** The first conditional default whose condition holds, else the plain default, else
      the zero of the type. */
  function DefaultFrom(st: State, cases: seq<(Cond, Expr)>, default: Option<Expr>, t: Type): Value {
    if cases == [] then
      match default
      case Some(e) => ExprResult(st, e)
      case None => Zero(t)
    else if Holds(st, cases[0].0) then ExprResult(st, cases[0].1)
    else DefaultFrom(st, cases[1..], default, t)
  }

  function DefaultOf(db: Db, st: State, k: Key): Value {
    var d := DeclOf(db, k);
    DefaultFrom(st, d.defaultCond, d.default, d.datatype_)
  }

  lemma {:induction false} DefaultFromFrame(a: State, b: State, cases: seq<(Cond, Expr)>, default: Option<Expr>,
                                            t: Type)
    requires Agree(a, b, CasesKeys(cases)) && (default.Some? ==> Agree(a, b, ExprKeys(default.value)))
    ensures DefaultFrom(a, cases, default, t) == DefaultFrom(b, cases, default, t)
  {
    if cases == [] {
      if default.Some? {
        ExprFrame(a, b, default.value);
      }
    } else {
      CondFrame(a, b, cases[0].0);
      ExprFrame(a, b, cases[0].1);
      DefaultFromFrame(a, b, cases[1..], default, t);
    }
  }

  /** Whether an option can be enabled depends on the options of its dependency expression
      only, and its default on those of its default clauses. */
  lemma OptionFrame(db: Db, a: State, b: State, k: Key)
    ensures Agree(a, b, DependsKeys(db, k)) ==> (CanEnable(db, a, k) <==> CanEnable(db, b, k))
    ensures Agree(a, b, DefaultKeys(db, k)) ==> DefaultOf(db, a, k) == DefaultOf(db, b, k)
  {
    var d := DeclOf(db, k);
    if Agree(a, b, DependsKeys(db, k)) && d.depends.Some? {
      CondFrame(a, b, d.depends.value);
    }
    if Agree(a, b, DefaultKeys(db, k)) {
      DefaultFromFrame(a, b, d.defaultCond, d.default, d.datatype_);
    }
  }

  lemma SameValuesSight(db: Db, a: State, b: State, k: Key)
    requires forall x :: ValueOf(a, x) == ValueOf(b, x)
    ensures CanEnable(db, a, k) <==> CanEnable(db, b, k)
    ensures DefaultOf(db, a, k) == DefaultOf(db, b, k)
  {
    OptionFrame(db, a, b, k);
  }

  /*** Types ***/

  predicate HasType(v: Value, t: Type) {
    match t
    case BoolType => v.B?
    case IntType => v.I?
    case StringType => v.S?
  }

  function ExprType(db: Db, e: Expr): Option<Type> {
    match e
    case Literal(B(_)) => Some(BoolType)
    case Literal(I(_)) => Some(IntType)
    case Literal(S(_)) => Some(StringType)
    case Ident(k) => Some(DeclOf(db, k).datatype_)
    case Plus(l, r) =>
      if ExprType(db, l) == ExprType(db, r) && ExprType(db, l) != Some(BoolType) then ExprType(db, l) else None
    case Minus(l, r) =>
      if ExprType(db, l) == ExprType(db, r) && ExprType(db, l) == Some(IntType) then Some(IntType) else None
  }

  ghost predicate Typed(db: Db, st: State) {
    forall k :: HasType(ValueOf(st, k), DeclOf(db, k).datatype_)
  }

  lemma {:induction false} ExprIsTyped(db: Db, st: State, e: Expr)
    requires Typed(db, st) && ExprType(db, e).Some?
    ensures ExprValue(st, e).Some? && HasType(ExprValue(st, e).value, ExprType(db, e).value)
  {
    match e
    case Literal(_) =>
    case Ident(k) =>
    case Plus(l, r) =>
      ExprIsTyped(db, st, l);
      ExprIsTyped(db, st, r);
    case Minus(l, r) =>
      ExprIsTyped(db, st, l);
      ExprIsTyped(db, st, r);
  }

  /** Every default of the option has the option's type. */
  ghost predicate DefaultsTyped(db: Db, d: Decl) {
    && (forall i :: 0 <= i < |d.defaultCond| ==> ExprType(db, d.defaultCond[i].1) == Some(d.datatype_))
    && (d.default.Some? ==> ExprType(db, d.default.value) == Some(d.datatype_))
  }

  lemma {:induction false} DefaultFromIsTyped(db: Db, st: State, cases: seq<(Cond, Expr)>, default: Option<Expr>,
                                              t: Type)
    requires Typed(db, st)
    requires forall i :: 0 <= i < |cases| ==> ExprType(db, cases[i].1) == Some(t)
    requires default.Some? ==> ExprType(db, default.value) == Some(t)
    ensures HasType(DefaultFrom(st, cases, default, t), t)
  {
    if cases == [] {
      if default.Some? {
        ExprIsTyped(db, st, default.value);
      }
    } else {
      ExprIsTyped(db, st, cases[0].1);
      DefaultFromIsTyped(db, st, cases[1..], default, t);
    }
  }

  lemma DefaultIsTyped(db: Db, st: State, k: Key)
    requires Typed(db, st) && DefaultsTyped(db, DeclOf(db, k))
    ensures HasType(DefaultOf(db, st, k), DeclOf(db, k).datatype_)
  {
    var d := DeclOf(db, k);
    DefaultFromIsTyped(db, st, d.defaultCond, d.default, d.datatype_);
  }
}
