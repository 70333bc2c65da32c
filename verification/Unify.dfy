/** Matching an atom pattern against a candidate (src/engine/unify.c). */
module Unify {
  import opened Syntax

  function UnifyTerm(b: Bindings, p: Term, c: Term): Option<Bindings> {
    if p.Variable? then
      if p.name in b then (if b[p.name] == c then Some(b) else None) else Some(b[p.name := c])
    else if c.Variable? then
      if c.name in b then (if p == b[c.name] then Some(b) else None) else Some(b[c.name := p])
    else if p == c then Some(b) else None
  }

  /** The bindings after the first `n` argument pairs, or None once a pair has failed. */
  function UnifyUpTo(b: Bindings, ps: seq<Term>, cs: seq<Term>, n: nat): Option<Bindings>
    requires n <= |ps| == |cs|
  {
    if n == 0 then Some(b)
    else
      var r := UnifyUpTo(b, ps, cs, n - 1);
      if r.None? then None else UnifyTerm(r.value, ps[n - 1], cs[n - 1])
  }

  function UnifyTerms(b: Bindings, ps: seq<Term>, cs: seq<Term>): Option<Bindings> {
    if |ps| != |cs| then None else UnifyUpTo(b, ps, cs, |ps|)
  }

  /** Kind, principals, predicate name and arity agree; temporal annotations are not looked at. */
  predicate SameShape(p: Atom, c: Atom, ignoreSpeaker: bool) {
    match p
    case SpeaksFor(k, d, _, _, _, _) => c.SpeaksFor? && k == c.principal && d == c.delegate
    case Says(k, pr, ts, _) => c.Says? && (ignoreSpeaker || k == c.principal) && pr == c.pred && |ts| == |c.terms|
    case Predicate(pr, ts, _) => c.Predicate? && pr == c.pred && |ts| == |c.terms|
  }

  function UnifyAtoms(b: Bindings, p: Atom, c: Atom, ignoreSpeaker: bool): Option<Bindings> {
    if SameShape(p, c, ignoreSpeaker) then UnifyTerms(b, p.Args(), c.Args()) else None
  }

  method UnifyAtom(b: Bindings, pattern: Atom, candidate: Atom, ignoreSpeaker: bool)
    returns (ok: bool, out: Bindings)
    ensures ok <==> UnifyAtoms(b, pattern, candidate, ignoreSpeaker).Some?
    ensures ok ==> out == UnifyAtoms(b, pattern, candidate, ignoreSpeaker).value
  {
    out := b;
    match (pattern, candidate)
    case (SpeaksFor(k, d, _, _, _, _), SpeaksFor(k', d', _, _, _, _)) =>
      ok := k == k' && d == d';
    case (Says(k, pr, ts, _), Says(k', pr', ts', _)) =>
      if !ignoreSpeaker && k != k' {
        return false, out;
      }
      if pr != pr' || |ts| != |ts'| {
        return false, out;
      }
      ok, out := UnifyArguments(b, ts, ts');
    case (Predicate(pr, ts, _), Predicate(pr', ts', _)) =>
      if pr != pr' || |ts| != |ts'| {
        return false, out;
      }
      ok, out := UnifyArguments(b, ts, ts');
    case (_, _) =>
      ok := false;
  }

  method UnifyArguments(b: Bindings, ps: seq<Term>, cs: seq<Term>) returns (ok: bool, out: Bindings)
    requires |ps| == |cs|
    ensures ok <==> UnifyTerms(b, ps, cs).Some?
    ensures ok ==> out == UnifyTerms(b, ps, cs).value
  {
    out := b;
    var i := 0;
    while i < |ps|
      invariant 0 <= i <= |ps|
      invariant UnifyUpTo(b, ps, cs, i) == Some(out)
    {
      var r := UnifyTerm(out, ps[i], cs[i]);
      if r.None? {
        UnifyStaysFailed(b, ps, cs, i + 1, |ps|);
        return false, out;
      }
      out := r.value;
      i := i + 1;
    }
    ok := true;
  }

  lemma {:induction false} UnifyStaysFailed(b: Bindings, ps: seq<Term>, cs: seq<Term>, m: nat, n: nat)
    requires m <= n <= |ps| == |cs|
    requires UnifyUpTo(b, ps, cs, m).None?
    ensures UnifyUpTo(b, ps, cs, n).None?
  {
    if m < n {
      UnifyStaysFailed(b, ps, cs, m, n - 1);
    }
  }

  /** `s` makes the pattern equal to the candidate while keeping every binding of `b`. */
  ghost predicate Unifier(b: Bindings, ps: seq<Term>, cs: seq<Term>, s: Bindings) {
    Extends(b, s) && Inst(ps, s) == cs
  }

  lemma {:induction false} UnifyUpToSound(b: Bindings, ps: seq<Term>, cs: seq<Term>, n: nat)
    requires n <= |ps| == |cs| && GroundTerms(cs)
    requires UnifyUpTo(b, ps, cs, n).Some?
    ensures var r := UnifyUpTo(b, ps, cs, n).value;
      && Extends(b, r) && r.Keys == b.Keys + Vars(ps[..n])
      && (GroundBindings(b) ==> GroundBindings(r))
      && forall i :: 0 <= i < n ==> InstTerm(ps[i], r) == cs[i]
  {
    if n > 0 {
      UnifyUpToSound(b, ps, cs, n - 1);
      VarsUpTo(ps, n - 1);
      var q := UnifyUpTo(b, ps, cs, n - 1).value;
      var r := UnifyUpTo(b, ps, cs, n).value;
      forall i | 0 <= i < n
        ensures InstTerm(ps[i], r) == cs[i]
      {
        if i < n - 1 && ps[i].Variable? {
          VarIn(ps[..n - 1], i);
          assert ps[i].name in q;
        }
      }
    }
  }

  lemma {:induction false} UnifyUpToLeast(b: Bindings, ps: seq<Term>, cs: seq<Term>, n: nat, s: Bindings)
    requires n <= |ps| == |cs| && GroundTerms(cs)
    requires Unifier(b, ps, cs, s)
    ensures UnifyUpTo(b, ps, cs, n).Some? && Extends(UnifyUpTo(b, ps, cs, n).value, s)
  {
    if n > 0 {
      UnifyUpToLeast(b, ps, cs, n - 1, s);
      assert Inst(ps, s)[n - 1] == InstTerm(ps[n - 1], s) == cs[n - 1];
    }
  }

  /**
   * Matching a ground candidate succeeds exactly when some extension of the bindings makes the
   * pattern equal to it, and then yields the least such extension, which binds exactly the
   * pattern's variables besides what was bound before.
   */
  lemma UnifyExact(b: Bindings, p: Atom, c: Atom, ignoreSpeaker: bool)
    requires c.Ground()
    ensures UnifyAtoms(b, p, c, ignoreSpeaker).Some? <==>
      SameShape(p, c, ignoreSpeaker) && exists s :: Unifier(b, p.Args(), c.Args(), s)
    ensures UnifyAtoms(b, p, c, ignoreSpeaker).Some? ==>
      var r := UnifyAtoms(b, p, c, ignoreSpeaker).value;
      && Unifier(b, p.Args(), c.Args(), r)
      && r.Keys == b.Keys + Vars(p.Args())
      && (GroundBindings(b) ==> GroundBindings(r))
      && forall s :: Unifier(b, p.Args(), c.Args(), s) ==> Extends(r, s)
  {
    if SameShape(p, c, ignoreSpeaker) {
      UnifyTermsExact(b, p.Args(), c.Args());
    }
  }

  lemma UnifyTermsExact(b: Bindings, ps: seq<Term>, cs: seq<Term>)
    requires GroundTerms(cs)
    ensures UnifyTerms(b, ps, cs).Some? <==> exists s :: Unifier(b, ps, cs, s)
    ensures UnifyTerms(b, ps, cs).Some? ==>
      var r := UnifyTerms(b, ps, cs).value;
      && Unifier(b, ps, cs, r)
      && r.Keys == b.Keys + Vars(ps)
      && (GroundBindings(b) ==> GroundBindings(r))
      && forall s :: Unifier(b, ps, cs, s) ==> Extends(r, s)
  {
    if |ps| == |cs| {
      if UnifyTerms(b, ps, cs).Some? {
        UnifyUpToSound(b, ps, cs, |ps|);
        assert ps[..|ps|] == ps;
        assert Unifier(b, ps, cs, UnifyTerms(b, ps, cs).value);
      }
      forall s | Unifier(b, ps, cs, s)
        ensures UnifyTerms(b, ps, cs).Some? && Extends(UnifyTerms(b, ps, cs).value, s)
      {
        UnifyUpToLeast(b, ps, cs, |ps|, s);
      }
    } else {
      forall s
        ensures !Unifier(b, ps, cs, s)
      {
        assert |Inst(ps, s)| == |ps|;
      }
    }
  }

  /** The unifier that binds nothing beyond the pattern's variables is the one computed. */
  lemma UnifyTermsIs(b: Bindings, ps: seq<Term>, cs: seq<Term>, s: Bindings)
    requires GroundTerms(cs) && Unifier(b, ps, cs, s) && s.Keys == b.Keys + Vars(ps)
    ensures UnifyTerms(b, ps, cs) == Some(s)
  {
    UnifyTermsExact(b, ps, cs);
    assert UnifyTerms(b, ps, cs).value == s;
  }

  // ---------- Candidates with variables ----------

  /** `v` gives both sides of every binding the same instance. */
  ghost predicate Respects(r: Bindings, v: Bindings) {
    forall x :: x in r ==> InstTerm(Variable(x), v) == InstTerm(r[x], v)
  }

  /** Whatever the two lists are, a substitution that respects the resulting bindings makes them equal. */
  lemma {:induction false} UnifySound(b: Bindings, ps: seq<Term>, cs: seq<Term>, n: nat, v: Bindings)
    requires n <= |ps| == |cs| && UnifyUpTo(b, ps, cs, n).Some? && Respects(UnifyUpTo(b, ps, cs, n).value, v)
    ensures Respects(b, v) && forall i :: 0 <= i < n ==> InstTerm(ps[i], v) == InstTerm(cs[i], v)
  {
    if n > 0 {
      var q, r := UnifyUpTo(b, ps, cs, n - 1).value, UnifyUpTo(b, ps, cs, n).value;
      assert forall x :: x in q ==> x in r && r[x] == q[x];
      UnifySound(b, ps, cs, n - 1, v);
    }
  }

  predicate OccursAt(ps: seq<Term>, cs: seq<Term>, i: nat, x: string)
    requires i < |ps| == |cs|
  {
    ps[i] == Variable(x) || cs[i] == Variable(x)
  }

  /** Where two variables meet, neither of them occurs at any other place. */
  ghost predicate VariablesMeetOnce(ps: seq<Term>, cs: seq<Term>)
    requires |ps| == |cs|
  {
    forall i: nat, j: nat, x :: i < |ps| && j < |ps| && i != j && ps[i].Variable? && cs[i].Variable? ==>
      OccursAt(ps, cs, i, x) ==> !OccursAt(ps, cs, j, x)
  }

  /** A bound name occurred, and is bound to a term without variables or to the variable it met. */
  ghost predicate BoundByPair(ps: seq<Term>, cs: seq<Term>, i: nat, x: string, t: Term)
    requires i < |ps| == |cs|
  {
    OccursAt(ps, cs, i, x) && (t.Variable? ==> ps[i] == Variable(x) && cs[i] == t)
  }

  /** A pair is equal under the bindings, and only a variable that met another may be left unbound. */
  ghost predicate PairSettled(ps: seq<Term>, cs: seq<Term>, i: nat, r: Bindings)
    requires i < |ps| == |cs|
  {
    && InstTerm(ps[i], r) == InstTerm(cs[i], r)
    && forall x :: OccursAt(ps, cs, i, x) && x !in r ==> ps[i].Variable? && cs[i].Variable?
  }

  ghost predicate Settled(ps: seq<Term>, cs: seq<Term>, n: nat, r: Bindings)
    requires n <= |ps| == |cs|
  {
    && (forall x :: x in r ==> exists i :: 0 <= i < n && BoundByPair(ps, cs, i, x, r[x]))
    && (forall i :: 0 <= i < n ==> PairSettled(ps, cs, i, r))
  }

  lemma PairStaysSettled(ps: seq<Term>, cs: seq<Term>, i: nat, n: nat, q: Bindings, r: Bindings)
    requires i < n < |ps| == |cs| && VariablesMeetOnce(ps, cs) && PairSettled(ps, cs, i, q)
    requires Extends(q, r) && forall x :: x in r && x !in q ==> OccursAt(ps, cs, n, x)
    ensures PairSettled(ps, cs, i, r)
  {
    forall x | OccursAt(ps, cs, i, x) && x !in q
      ensures x !in r
    {
      assert !OccursAt(ps, cs, n, x);
    }
  }

  lemma {:induction false} UnifySettles(ps: seq<Term>, cs: seq<Term>, n: nat)
    requires n <= |ps| == |cs| && VariablesMeetOnce(ps, cs) && UnifyUpTo(map[], ps, cs, n).Some?
    ensures Settled(ps, cs, n, UnifyUpTo(map[], ps, cs, n).value)
  {
    if n > 0 {
      UnifySettles(ps, cs, n - 1);
      var q, r := UnifyUpTo(map[], ps, cs, n - 1).value, UnifyUpTo(map[], ps, cs, n).value;
      forall x | x in r
        ensures exists i :: 0 <= i < n && BoundByPair(ps, cs, i, x, r[x])
      {
        if x in q {
          var i :| 0 <= i < n - 1 && BoundByPair(ps, cs, i, x, q[x]);
          assert BoundByPair(ps, cs, i, x, r[x]);
        } else {
          assert BoundByPair(ps, cs, n - 1, x, r[x]);
        }
      }
      forall i | 0 <= i < n
        ensures PairSettled(ps, cs, i, r)
      {
        if i < n - 1 {
          assert PairSettled(ps, cs, i, q);
          PairStaysSettled(ps, cs, i, n - 1, q, r);
        } else {
          LastPairSettles(ps, cs, n - 1, q, r);
        }
      }
    }
  }

  /** A name bound before is bound to a term without variables if it comes up again. */
  lemma SeenAgain(ps: seq<Term>, cs: seq<Term>, n: nat, q: Bindings, x: string)
    requires n < |ps| == |cs| && VariablesMeetOnce(ps, cs) && Settled(ps, cs, n, q)
    requires x in q && OccursAt(ps, cs, n, x)
    ensures !q[x].Variable? && !(ps[n].Variable? && cs[n].Variable?)
  {
    var i :| 0 <= i < n && BoundByPair(ps, cs, i, x, q[x]);
  }

  lemma LastPairSettles(ps: seq<Term>, cs: seq<Term>, n: nat, q: Bindings, r: Bindings)
    requires n < |ps| == |cs| && VariablesMeetOnce(ps, cs) && Settled(ps, cs, n, q)
    requires UnifyTerm(q, ps[n], cs[n]) == Some(r)
    ensures PairSettled(ps, cs, n, r)
  {
    if ps[n].Variable? && ps[n].name in q {
      SeenAgain(ps, cs, n, q, ps[n].name);
    } else if cs[n].Variable? && cs[n].name in q {
      SeenAgain(ps, cs, n, q, cs[n].name);
    }
  }

  /** If some substitution makes all pairs equal, none of them fails. */
  lemma {:induction false} UnifyMeets(ps: seq<Term>, cs: seq<Term>, n: nat, s: Bindings)
    requires n <= |ps| == |cs| && VariablesMeetOnce(ps, cs)
    requires forall i :: 0 <= i < n ==> InstTerm(ps[i], s) == InstTerm(cs[i], s)
    ensures UnifyUpTo(map[], ps, cs, n).Some?
    ensures Respects(UnifyUpTo(map[], ps, cs, n).value, s)
  {
    if n > 0 {
      UnifyMeets(ps, cs, n - 1, s);
      UnifySettles(ps, cs, n - 1);
      var q := UnifyUpTo(map[], ps, cs, n - 1).value;
      var p, c := ps[n - 1], cs[n - 1];
      if p.Variable? && p.name in q {
        SeenAgain(ps, cs, n - 1, q, p.name);
      } else if c.Variable? && c.name in q {
        SeenAgain(ps, cs, n - 1, q, c.name);
      }
    }
  }

  /**
   * Two lists with variables on either side, where variables that meet occur only there: unification
   * succeeds exactly when some substitution makes both instances equal. Its bindings then do so, and
   * every such substitution factors through them.
   */
  lemma UnifyMeetingExact(ps: seq<Term>, cs: seq<Term>)
    requires |ps| == |cs| && VariablesMeetOnce(ps, cs)
    ensures UnifyTerms(map[], ps, cs).Some? <==> exists s: Bindings :: Inst(ps, s) == Inst(cs, s)
    ensures UnifyTerms(map[], ps, cs).Some? ==>
      var r := UnifyTerms(map[], ps, cs).value;
      && Inst(ps, r) == Inst(cs, r)
      && forall s: Bindings :: Inst(ps, s) == Inst(cs, s) ==> Respects(r, s)
  {
    if UnifyTerms(map[], ps, cs).Some? {
      var r := UnifyTerms(map[], ps, cs).value;
      UnifySettles(ps, cs, |ps|);
      forall i | 0 <= i < |ps|
        ensures Inst(ps, r)[i] == Inst(cs, r)[i]
      {
        assert PairSettled(ps, cs, i, r);
      }
      assert Inst(ps, r) == Inst(cs, r);
    }
    forall s: Bindings | Inst(ps, s) == Inst(cs, s)
      ensures UnifyTerms(map[], ps, cs).Some? && Respects(UnifyTerms(map[], ps, cs).value, s)
    {
      forall i | 0 <= i < |ps|
        ensures InstTerm(ps[i], s) == InstTerm(cs[i], s)
      {
        assert Inst(ps, s)[i] == Inst(cs, s)[i];
      }
      UnifyMeets(ps, cs, |ps|, s);
    }
  }

  /** One table of names in which every pair of the lists is entered. */
  ghost predicate Tabled(ps: seq<Term>, cs: seq<Term>, i: nat, r: Bindings)
    requires i < |ps| == |cs|
  {
    if ps[i].Variable? then ps[i].name in r && r[ps[i].name] == cs[i]
    else if cs[i].Variable? then cs[i].name in r && r[cs[i].name] == ps[i]
    else ps[i] == cs[i]
  }

  ghost predicate Table(b: Bindings, ps: seq<Term>, cs: seq<Term>, n: nat, r: Bindings)
    requires n <= |ps| == |cs|
  {
    Extends(b, r) && forall i :: 0 <= i < n ==> Tabled(ps, cs, i, r)
  }

  lemma {:induction false} UnifyTable(b: Bindings, ps: seq<Term>, cs: seq<Term>, n: nat, s: Bindings)
    requires n <= |ps| == |cs|
    ensures UnifyUpTo(b, ps, cs, n).Some? ==> Table(b, ps, cs, n, UnifyUpTo(b, ps, cs, n).value)
    ensures Table(b, ps, cs, n, s) ==> UnifyUpTo(b, ps, cs, n).Some? && Extends(UnifyUpTo(b, ps, cs, n).value, s)
  {
    if n > 0 {
      UnifyTable(b, ps, cs, n - 1, s);
      if UnifyUpTo(b, ps, cs, n).Some? {
        var q, r := UnifyUpTo(b, ps, cs, n - 1).value, UnifyUpTo(b, ps, cs, n).value;
        forall i | 0 <= i < n
          ensures Tabled(ps, cs, i, r)
        {
          assert i < n - 1 ==> Tabled(ps, cs, i, q);
        }
      }
      if Table(b, ps, cs, n, s) {
        assert Tabled(ps, cs, n - 1, s);
      }
    }
  }

  /**
   * On any two lists: unification succeeds exactly when one table of names, beginning with the
   * bindings, can hold for every pattern variable the candidate opposite, and for every candidate
   * variable the constant opposite. It yields the least such table.
   */
  lemma UnifyIsTable(b: Bindings, ps: seq<Term>, cs: seq<Term>)
    requires |ps| == |cs|
    ensures UnifyTerms(b, ps, cs).Some? <==> exists r :: Table(b, ps, cs, |ps|, r)
    ensures UnifyTerms(b, ps, cs).Some? ==>
      var r := UnifyTerms(b, ps, cs).value;
      Table(b, ps, cs, |ps|, r) && forall s :: Table(b, ps, cs, |ps|, s) ==> Extends(r, s)
  {
    UnifyTable(b, ps, cs, |ps|, b);
    forall s | Table(b, ps, cs, |ps|, s)
      ensures UnifyTerms(b, ps, cs).Some? && Extends(UnifyTerms(b, ps, cs).value, s)
    {
      UnifyTable(b, ps, cs, |ps|, s);
    }
  }

  /** Beyond that equality of instances is not enough: p(X, X) and p(Y, a) have one and are not unified. */
  lemma RepeatedVariableFails()
    ensures var ps, cs := [Variable("X"), Variable("X")], [Variable("Y"), Symbol("a")];
      && UnifyTerms(map[], ps, cs).None?
      && Inst(ps, map["X" := Symbol("a"), "Y" := Symbol("a")]) == Inst(cs, map["X" := Symbol("a"), "Y" := Symbol("a")])
  {
    var ps, cs := [Variable("X"), Variable("X")], [Variable("Y"), Symbol("a")];
    var m: Bindings := map["X" := Symbol("a"), "Y" := Symbol("a")];
    UnifyIsTable(map[], ps, cs);
    forall r
      ensures !Table(map[], ps, cs, 2, r)
    {
      assert Tabled(ps, cs, 0, r) ==> !Tabled(ps, cs, 1, r);
    }
    assert Inst(ps, m) == Inst(cs, m);
  }

  // ---------- Atoms with different variables ----------

  /** Some instance of the one atom is an instance of the other, each with a substitution of its own. */
  ghost predicate Meets(p: Atom, c: Atom) {
    SameShape(p, c, false) && exists s: Bindings, t: Bindings :: Inst(p.Args(), s) == Inst(c.Args(), t)
  }

  /** The atoms share no variable, and where variables meet they occur only there. */
  ghost predicate Independent(p: Atom, c: Atom) {
    Vars(p.Args()) !! Vars(c.Args()) && (|p.Args()| == |c.Args()| ==> VariablesMeetOnce(p.Args(), c.Args()))
  }

  /** One substitution for two that act on different variables. */
  lemma JoinedInstances(ps: seq<Term>, xs: set<string>, s: Bindings, cs: seq<Term>, t: Bindings) returns (u: Bindings)
    requires Vars(ps) !! Vars(cs) && Vars(ps) <= xs && xs !! Vars(cs)
    ensures u == Restrict(t, Vars(cs)) + Restrict(s, xs)
    ensures Inst(ps, u) == Inst(ps, s) && Inst(cs, u) == Inst(cs, t)
  {
    u := Restrict(t, Vars(cs)) + Restrict(s, xs);
    InstAgree(ps, u, s);
    InstAgree(cs, u, t);
  }

  /** Independent atoms unify exactly when they meet, and the bindings make their instances equal. */
  lemma IndependentUnify(p: Atom, c: Atom)
    requires Independent(p, c)
    ensures UnifyAtoms(map[], p, c, false).Some? <==> Meets(p, c)
    ensures UnifyAtoms(map[], p, c, false).Some? ==>
      var r := UnifyAtoms(map[], p, c, false).value; Inst(p.Args(), r) == Inst(c.Args(), r)
  {
    if SameShape(p, c, false) {
      UnifyMeetingExact(p.Args(), c.Args());
      if Meets(p, c) {
        var s: Bindings, t: Bindings :| Inst(p.Args(), s) == Inst(c.Args(), t);
        var u := JoinedInstances(p.Args(), Vars(p.Args()), s, c.Args(), t);
      }
    }
  }
}
