/** The reverse indices: under each option, the options that have to be looked at again when
    its value changes. */
module Indices {
  import opened Options
  import opened Choices

  type Index = map<Key, seq<Key>>

  function ListAt(index: Index, i: Key): seq<Key> {
    if i in index then index[i] else []
  }

  /** Under i are the options whose dependencies name i. An option is not listed under
      itself unless it names itself. */
  ghost predicate DependsIndexed(db: Db, index: Index) {
    && (forall i, k :: k in ListAt(index, i) ==> k in db.decls && i in DependsKeys(db, k))
    && (forall i, k :: i != k && k in db.decls && i in DependsKeys(db, k) ==> k in ListAt(index, i))
  }

  ghost predicate DefaultIndexed(db: Db, index: Index) {
    && (forall i, k :: k in ListAt(index, i) ==> k in db.decls && i in DefaultKeys(db, k))
    && (forall i, k :: i != k && k in db.decls && i in DefaultKeys(db, k) ==> k in ListAt(index, i))
  }

  ghost predicate SelectIfIndexed(db: Db, index: Index) {
    && (forall i, k :: k in ListAt(index, i) ==> k in db.decls && i in IfKeys(db.decls[k]))
    && (forall i, k :: k in db.decls && i in IfKeys(db.decls[k]) ==> k in ListAt(index, i))
  }

  /** A change of option i alone changes whether k can be enabled only if k is i or listed
      under it, and its default only if k is i or listed there. */
  lemma IndexCovers(db: Db, rdepends: Index, rdefault: Index, a: State, b: State, i: Key, k: Key)
    requires DependsIndexed(db, rdepends) && DefaultIndexed(db, rdefault) && k in db.decls
    requires forall x :: x != i ==> ValueOf(a, x) == ValueOf(b, x)
    ensures k != i && k !in ListAt(rdepends, i) ==> (CanEnable(db, a, k) <==> CanEnable(db, b, k))
    ensures k != i && k !in ListAt(rdefault, i) ==> DefaultOf(db, a, k) == DefaultOf(db, b, k)
  {
    hide DependsKeys, DefaultKeys, CanEnable, DefaultOf, ListAt;
    OptionFrame(db, a, b, k);
  }

  /*** Building them ***/

  /** index with k appended under each of deps. */
  method AddUnder(index: Index, deps: set<Key>, k: Key) returns (r: Index)
    ensures forall i, x :: x in ListAt(r, i) <==> x in ListAt(index, i) || (x == k && i in deps)
  {
    r := index;
    var todo := deps;
    while todo != {}
      invariant todo <= deps
      invariant forall i, x :: x in ListAt(r, i) <==> x in ListAt(index, i) || (x == k && i in deps - todo)
      decreases |todo|
    {
      var i :| i in todo;
      r := r[i := ListAt(r, i) + [k]];
      todo := todo - {i};
    }
  }

  method AddDefaults(index: Index, d: Decl, k: Key) returns (r: Index)
    ensures forall i, x :: x in ListAt(r, i) <==> x in ListAt(index, i) || (x == k && i in AllDefaultKeys(d))
  {
    hide ListAt, CondKeys, ExprKeys;
    r := index;
    var j := 0;
    assert d.defaultCond[0..] == d.defaultCond;
    while j < |d.defaultCond|
      invariant 0 <= j <= |d.defaultCond|
      invariant forall i, x :: (x in ListAt(r, i) || (x == k && i in CasesKeys(d.defaultCond[j..]))) <==>
                               (x in ListAt(index, i) || (x == k && i in CasesKeys(d.defaultCond)))
    {
      r := AddUnder(r, CondKeys(d.defaultCond[j].0), k);
      r := AddUnder(r, ExprKeys(d.defaultCond[j].1), k);
      assert d.defaultCond[j..][1..] == d.defaultCond[j + 1..];
      j := j + 1;
    }
    if d.default.Some? {
      r := AddUnder(r, ExprKeys(d.default.value), k);
    }
  }

  function AllDefaultKeys(d: Decl): set<Key> {
    CasesKeys(d.defaultCond) + if d.default.Some? then ExprKeys(d.default.value) else {}
  }

  method AddSelectIfs(index: Index, d: Decl, k: Key) returns (r: Index)
    ensures forall i, x :: x in ListAt(r, i) <==> x in ListAt(index, i) || (x == k && i in IfKeys(d))
  {
    hide ListAt, CondKeys;
    r := index;
    var j := 0;
    while j < |d.selectIf|
      invariant 0 <= j <= |d.selectIf|
      invariant forall i, x :: x in ListAt(r, i) <==>
                  x in ListAt(index, i) || (x == k && exists m :: 0 <= m < j && i in CondKeys(d.selectIf[m].1))
    {
      r := AddUnder(r, CondKeys(d.selectIf[j].1), k);
      j := j + 1;
    }
  }

  function RemoveFirst(ks: seq<Key>, k: Key): (r: seq<Key>)
    ensures forall x :: x in r ==> x in ks
    ensures forall x :: x in ks && x != k ==> x in r
  {
    if ks == [] then [] else if ks[0] == k then ks[1..] else [ks[0]] + RemoveFirst(ks[1..], k)
  }

  /** An option that depends on itself is reported and taken off its own list. */
  method DropSelf(index: Index, k: Key) returns (r: Index)
    ensures forall i, x :: x in ListAt(r, i) ==> x in ListAt(index, i)
    ensures forall i, x :: x in ListAt(index, i) && (i != k || x != k) ==> x in ListAt(r, i)
  {
    r := index;
    if k in ListAt(index, k) {
      r := r[k := RemoveFirst(index[k], k)];
    }
  }

  lemma DefaultKeysAre(db: Db, k: Key)
    requires k in db.decls
    ensures DefaultKeys(db, k) == AllDefaultKeys(db.decls[k])
  {
    hide CasesKeys;
  }

  method ListAll(db: Db) returns (rdepends: Index, rdefault: Index, rselectIf: Index)
    requires forall k :: k in db.order <==> k in db.decls
    ensures DependsIndexed(db, rdepends) && DefaultIndexed(db, rdefault) && SelectIfIndexed(db, rselectIf)
  {
    rdepends, rdefault, rselectIf := map[], map[], map[];
    NothingListed();
    hide DependsKeys, DefaultKeys, AllDefaultKeys, IfKeys, ListAt;
    var n := 0;
    while n < |db.order|
      invariant 0 <= n <= |db.order|
      invariant forall i, k :: k in ListAt(rdepends, i) <==> k in db.order[..n] && i in DependsKeys(db, k)
      invariant forall i, k :: k in ListAt(rdefault, i) <==> k in db.order[..n] && i in DefaultKeys(db, k)
      invariant forall i, k :: k in ListAt(rselectIf, i) <==>
                k in db.order[..n] && k in db.decls && i in IfKeys(db.decls[k])
    {
      var k := db.order[n];
      DefaultKeysAre(db, k);
      rdepends := AddUnder(rdepends, DependsKeys(db, k), k);
      rdefault := AddDefaults(rdefault, db.decls[k], k);
      rselectIf := AddSelectIfs(rselectIf, db.decls[k], k);
      assert db.order[..n + 1] == db.order[..n] + [k];
      n := n + 1;
    }
    assert db.order[..n] == db.order;
  }

  lemma NothingListed()
    ensures forall i :: ListAt(map[], i) == []
  {
  }

  method BuildIndices(db: Db) returns (rdepends: Index, rdefault: Index, rselectIf: Index)
    requires forall k :: k in db.order <==> k in db.decls
    ensures DependsIndexed(db, rdepends) && DefaultIndexed(db, rdefault) && SelectIfIndexed(db, rselectIf)
  {
    hide DependsKeys, DefaultKeys, IfKeys, ListAt;
    rdepends, rdefault, rselectIf := ListAll(db);
    var n := 0;
    while n < |db.order|
      invariant 0 <= n <= |db.order|
      invariant DependsIndexed(db, rdepends) && DefaultIndexed(db, rdefault)
    {
      rdepends := DropSelf(rdepends, db.order[n]);
      rdefault := DropSelf(rdefault, db.order[n]);
      n := n + 1;
    }
  }
}
