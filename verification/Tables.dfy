/** Relation keys (src/core/canon.c:113-123) and the keyed fact store (src/engine/tables.c). */
module Tables {
  import opened Syntax
  import opened Decimal

  const SPEAKS_FOR_KEY := "__speaks_for__/2"
  const SAYS_PREFIX := "__says__"

  function RelationKey(a: Atom): string {
    match a
    case SpeaksFor(_, _, _, _, _, _) => SPEAKS_FOR_KEY
    case Says(k, p, ts, _) => "__says__/" + k + "/" + p + "/" + ToDecimal(|ts|)
    case Predicate(p, ts, _) => p + "/" + ToDecimal(|ts|)
  }

  /** Names beginning with two underscores are kept for the keys of says and speaks_for relations. */
  predicate Reserved(name: string) {
    "__" <= name
  }

  predicate PlainName(a: Atom) {
    a.Predicate? ==> !Reserved(a.pred)
  }

  lemma PlainKey(a: Atom)
    requires PlainName(a)
    ensures SAYS_PREFIX <= RelationKey(a) <==> a.Says?
    ensures RelationKey(a) == SPEAKS_FOR_KEY <==> a.SpeaksFor?
  {
    match a {
      case Predicate(p, ts, _) =>
        var key := RelationKey(a);
        assert |p| >= 2 ==> p[0] == key[0] && p[1] == key[1];
        assert |p| == 1 ==> key[1] == '/';
        assert |p| == 0 ==> key[0] == '/';
        assert !("__" <= key);
        assert "__" <= SAYS_PREFIX && "__" <= SPEAKS_FOR_KEY;
      case Says(_, _, _, _) =>
        assert RelationKey(a)[3] == 'a' && SPEAKS_FOR_KEY[3] == 'p';
      case SpeaksFor(_, _, _, _, _, _) =>
        assert SPEAKS_FOR_KEY[3] == 'p' && SAYS_PREFIX[3] == 'a';
    }
  }

  /** Names without a slash, as all names are that the parser reads as identifiers. */
  predicate NoSlash(a: Atom) {
    match a
    case SpeaksFor(_, _, _, _, _, _) => true
    case Says(k, p, _, _) => Lacks(k, '/') && Lacks(p, '/')
    case Predicate(p, _, _) => Lacks(p, '/')
  }

  /** Two atoms are filed under one key exactly when kind, principal, predicate and arity agree. */
  lemma KeyTells(a: Atom, c: Atom)
    requires PlainName(a) && PlainName(c) && NoSlash(a) && NoSlash(c)
    ensures RelationKey(a) == RelationKey(c) <==>
      match a
      case SpeaksFor(_, _, _, _, _, _) => c.SpeaksFor?
      case Says(k, p, ts, _) => c.Says? && k == c.principal && p == c.pred && |ts| == |c.terms|
      case Predicate(p, ts, _) => c.Predicate? && p == c.pred && |ts| == |c.terms|
  {
    hide RelationKey, Reserved;
    PlainKey(a);
    PlainKey(c);
    if a.Says? && c.Says? {
      SaysKeyTells(a.principal, a.pred, |a.terms|, c.principal, c.pred, |c.terms|);
      SaysKey(a);
      SaysKey(c);
    } else if a.Predicate? && c.Predicate? {
      NameKeyTells(a.pred, |a.terms|, c.pred, |c.terms|);
      NameKey(a);
      NameKey(c);
    }
  }

  lemma SaysKey(a: Atom)
    requires a.Says?
    ensures RelationKey(a) == "__says__/" + (a.principal + "/" + (a.pred + "/" + ToDecimal(|a.terms|)))
  {
    hide ToDecimal;
  }

  lemma NameKey(a: Atom)
    requires a.Predicate?
    ensures RelationKey(a) == a.pred + "/" + ToDecimal(|a.terms|)
  {
  }

  lemma NameKeyTells(p: string, m: nat, q: string, n: nat)
    requires Lacks(p, '/') && Lacks(q, '/')
    ensures p + "/" + ToDecimal(m) == q + "/" + ToDecimal(n) <==> p == q && m == n
  {
    hide ToDecimal;
    assert "/" == ['/'];
    if p + "/" + ToDecimal(m) == q + "/" + ToDecimal(n) {
      SplitFirst(p, ToDecimal(m), q, ToDecimal(n), '/');
      DecimalInjective(m, n);
    }
  }

  lemma SaysKeyTells(k: string, p: string, m: nat, l: string, q: string, n: nat)
    requires Lacks(k, '/') && Lacks(p, '/') && Lacks(l, '/') && Lacks(q, '/')
    ensures var x, y := p + "/" + ToDecimal(m), q + "/" + ToDecimal(n);
      "__says__/" + (k + "/" + x) == "__says__/" + (l + "/" + y) <==> k == l && p == q && m == n
  {
    hide ToDecimal;
    var x, y := p + "/" + ToDecimal(m), q + "/" + ToDecimal(n);
    NameKeyTells(p, m, q, n);
    if "__says__/" + (k + "/" + x) == "__says__/" + (l + "/" + y) {
      SamePrefix("__says__/", k + "/" + x, l + "/" + y);
      assert "/" == ['/'];
      SplitFirst(k, x, l, y, '/');
    }
  }

  lemma SamePrefix(front: string, x: string, y: string)
    requires front + x == front + y
    ensures x == y
  {
    assert (front + x)[|front|..] == x && (front + y)[|front|..] == y;
  }

  datatype Relation = Relation(key: string, facts: seq<Fact>)

  ghost predicate Contains(r: Relation, f: Fact) {
    exists j :: 0 <= j < |r.facts| && r.facts[j] == f
  }

  ghost predicate Stores(rs: seq<Relation>, f: Fact) {
    exists i :: 0 <= i < |rs| && Contains(rs[i], f)
  }

  /** The flat set of stored atoms that the keyed relations index. */
  ghost function Flat(rs: seq<Relation>): iset<Atom> {
    iset f | Stores(rs, f) :: f.atom
  }

  class RelationSet {
    var items: seq<Relation>

    /** One relation per key, and every fact filed under its own key. */
    ghost predicate Valid()
      reads this
    {
      && (forall i, j :: 0 <= i < j < |items| ==> items[i].key != items[j].key)
      && (forall i, f :: 0 <= i < |items| && Contains(items[i], f) ==>
            RelationKey(f.atom) == items[i].key && f.atom.Ground() && PlainName(f.atom))
    }

    ghost function Db(): iset<Atom>
      reads this
    {
      Flat(items)
    }

    constructor ()
      ensures Valid() && items == [] && Db() == iset{}
    {
      items := [];
    }

    /** etb_relation_set_find: the index of the relation with this key, or |items|. */
    method Find(key: string) returns (at: nat)
      ensures at <= |items|
      ensures at < |items| ==> items[at].key == key
      ensures at == |items| ==> forall i :: 0 <= i < |items| ==> items[i].key != key
    {
      at := 0;
      while at < |items|
        invariant at <= |items|
        invariant forall i :: 0 <= i < at ==> items[i].key != key
      {
        if items[at].key == key {
          return;
        }
        at := at + 1;
      }
    }

    /** The scan under one key sees every stored fact with that key. */
    lemma KeyedIsFlat(key: string, at: nat, f: Fact)
      requires Valid() && at <= |items|
      requires at < |items| ==> items[at].key == key
      requires at == |items| ==> forall i :: 0 <= i < |items| ==> items[i].key != key
      ensures Stores(items, f) && RelationKey(f.atom) == key <==> at < |items| && Contains(items[at], f)
    {
    }

    /** The scan of one relation for an equal atom. */
    method Scan(at: nat, a: Atom) returns (found: bool)
      requires at < |items|
      ensures found <==> exists f :: Contains(items[at], f) && f.atom == a
    {
      var facts := items[at].facts;
      var j := 0;
      while j < |facts|
        invariant j <= |facts|
        invariant forall k :: 0 <= k < j ==> facts[k].atom != a
      {
        if facts[j].atom == a {
          assert Contains(items[at], facts[j]);
          return true;
        }
        j := j + 1;
      }
      found := false;
    }

    /** etb_relation_contains_fact */
    method ContainsFact(a: Atom) returns (found: bool)
      requires Valid()
      ensures found <==> a in Db()
    {
      hide RelationKey;
      var at := Find(RelationKey(a));
      forall f: Fact {
        KeyedIsFlat(RelationKey(a), at, f);
      }
      if at == |items| {
        return false;
      }
      found := Scan(at, a);
    }

    /** etb_relation_set_add_fact: files the fact under its key unless an equal atom is already there. */
    method AddFact(fact: Fact)
      requires Valid() && fact.atom.Ground() && PlainName(fact.atom)
      modifies this
      ensures Valid()
      ensures Db() == old(Db()) + iset{fact.atom}
      ensures forall f :: Stores(items, f) <==> old(Stores(items, f)) || (f == fact && fact.atom !in old(Db()))
    {
      hide RelationKey, PlainName, Contains;
      var at := OpenRelation(RelationKey(fact.atom));
      forall f: Fact {
        KeyedIsFlat(RelationKey(fact.atom), at, f);
      }
      var known := Scan(at, fact.atom);
      if !known {
        File(at, fact);
      }
    }

    /** The relation with this key, which is created empty when it is missing (source lines 79-82). */
    method OpenRelation(key: string) returns (at: nat)
      requires Valid()
      modifies this
      ensures Valid() && at < |items| && items[at].key == key
      ensures forall f :: Stores(items, f) <==> old(Stores(items, f))
    {
      hide RelationKey, PlainName;
      ghost var before := items;
      at := Find(key);
      if at == |items| {
        items := items + [Relation(key, [])];
      }
      StoresPad(before, items, at, key);
    }

    method File(at: nat, fact: Fact)
      requires Valid() && at < |items| && items[at].key == RelationKey(fact.atom)
      requires fact.atom.Ground() && PlainName(fact.atom)
      modifies this
      ensures Valid()
      ensures forall f :: Stores(items, f) <==> old(Stores(items, f)) || f == fact
    {
      hide RelationKey, PlainName, Contains, Stores;
      StoresAppend(items, at, fact);
      items := items[at := Relation(items[at].key, items[at].facts + [fact])];
    }
  }

  lemma StoresPad(before: seq<Relation>, after: seq<Relation>, at: nat, key: string)
    requires after == before || after == before + [Relation(key, [])]
    ensures forall f :: Stores(after, f) <==> Stores(before, f)
  {
    if after != before {
      forall f
        ensures Stores(after, f) <==> Stores(before, f)
      {
        if Stores(before, f) {
          var i :| 0 <= i < |before| && Contains(before[i], f);
          assert Contains(after[i], f);
        }
        if Stores(after, f) {
          var i :| 0 <= i < |after| && Contains(after[i], f);
          assert Contains(before[i], f);
        }
      }
    }
  }

  lemma StoresAppend(rs: seq<Relation>, at: nat, fact: Fact)
    requires at < |rs|
    ensures var after := rs[at := Relation(rs[at].key, rs[at].facts + [fact])];
      && Contains(after[at], fact)
      && (forall f :: Contains(after[at], f) <==> Contains(rs[at], f) || f == fact)
      && (forall f :: Stores(after, f) <==> Stores(rs, f) || f == fact)
  {
    var after := rs[at := Relation(rs[at].key, rs[at].facts + [fact])];
    assert after[at].facts[|rs[at].facts|] == fact;
    forall f
      ensures Contains(after[at], f) <==> Contains(rs[at], f) || f == fact
    {
      if Contains(rs[at], f) {
        var j :| 0 <= j < |rs[at].facts| && rs[at].facts[j] == f;
        assert after[at].facts[j] == f;
      }
    }
    forall f
      ensures Stores(after, f) <==> Stores(rs, f) || f == fact
    {
      if Stores(rs, f) {
        var i :| 0 <= i < |rs| && Contains(rs[i], f);
        assert Contains(after[i], f);
      }
      if Stores(after, f) {
        var i :| 0 <= i < |after| && Contains(after[i], f);
        assert Contains(rs[i], f) || f == fact;
      }
    }
  }
}
