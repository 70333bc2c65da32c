/**
 * What a program means: the substitutions that satisfy a clause body over a set of facts, the
 * stages of bottom-up evaluation, and the least model.
 */
module Semantics {
  import opened Syntax
  import opened Unify
  import opened Delegation

  /** An adapter's reply: tuples and, for each tuple that has one, an evidence digest. */
  datatype Reply = Reply(tuples: seq<seq<Term>>, evidence: seq<string>)

  /** Adapters are a pure function of name, arguments and mask; None is a failed invocation. */
  type Oracle = (string, seq<Term>, seq<bool>) -> Option<Reply>

  datatype Context = Context(program: seq<Statement>, now: nat, oracle: Oracle)

  // ---------- Literals ----------

  predicate IsCapability(program: seq<Statement>, lit: Literal) {
    lit.atom.Predicate? && Capability(lit.atom.pred, |lit.atom.terms|) in program
  }

  predicate ValidNow(now: nat, a: Atom) {
    a.when.ExpiresAt? ==> now <= a.when.time
  }

  predicate TemporalMatches(pattern: Atom, fact: Atom) {
    pattern.when.Untimed? || pattern.when == fact.when
  }

  predicate Usable(now: nat, pattern: Atom, fact: Atom) {
    ValidNow(now, fact) && TemporalMatches(pattern, fact)
  }

  /**
   * A stored fact expires after its time. A literal without annotation takes any fact in force; one with
   * an annotation takes facts with the same one only.
   */
  lemma UsableByKind(now: nat, p: Atom, f: Atom)
    ensures p.when.Untimed? ==> (Usable(now, p, f) <==> !(f.when.ExpiresAt? && f.when.time < now))
    ensures p.when.ExpiresAt? ==>
      (Usable(now, p, f) <==> f.when.ExpiresAt? && f.when.time == p.when.time && now <= f.when.time)
    ensures p.when.AnchoredAt? ==> (Usable(now, p, f) <==> f.when.AnchoredAt? && f.when.time == p.when.time)
  {
  }

  /** Arguments handed to an adapter: bound variables by value, unbound ones as null. */
  function CallArgs(ts: seq<Term>, b: Bindings): (r: seq<Term>)
    ensures |r| == |ts|
  {
    seq(|ts|, i requires 0 <= i < |ts| =>
      if ts[i].Variable? then (if ts[i].name in b then b[ts[i].name] else Null) else ts[i])
  }

  function CallMask(ts: seq<Term>, b: Bindings): (r: seq<bool>)
    ensures |r| == |ts|
  {
    seq(|ts|, i requires 0 <= i < |ts| => !ts[i].Variable? || ts[i].name in b)
  }

  /** An argument is marked as known exactly when its instance is no variable; then that instance is handed over. */
  lemma CallHandsOver(ts: seq<Term>, b: Bindings, i: nat)
    requires GroundBindings(b) && i < |ts|
    ensures CallMask(ts, b)[i] <==> !Inst(ts, b)[i].Variable?
    ensures CallArgs(ts, b)[i] == if CallMask(ts, b)[i] then Inst(ts, b)[i] else Null
  {
  }

  /** A reply that unifies agrees with what was handed over as known. */
  lemma ReplyAgrees(ts: seq<Term>, b: Bindings, tuple: seq<Term>, i: nat)
    requires GroundBindings(b) && GroundTerms(tuple) && UnifyTerms(b, ts, tuple).Some?
    requires i < |ts| && CallMask(ts, b)[i]
    ensures i < |tuple| && tuple[i] == CallArgs(ts, b)[i]
  {
    UnifyTermsExact(b, ts, tuple);
    var r := UnifyTerms(b, ts, tuple).value;
    CallHandsOver(ts, b, i);
    assert Inst(ts, r)[i] == tuple[i];
  }

  ghost predicate Answered(oracle: Oracle, a: Atom, b: Bindings, tuple: seq<Term>)
    requires a.Predicate?
  {
    var reply := oracle(a.pred, CallArgs(a.terms, b), CallMask(a.terms, b));
    reply.Some? && tuple in reply.value.tuples
  }

  /** A stored fact that a positive literal may use: right shape, in force, and said by an allowed speaker. */
  ghost predicate Supports(now: nat, facts: iset<Atom>, pattern: Atom, f: Atom) {
    && f in facts && Usable(now, pattern, f) && SameShape(pattern, f, true)
    && (pattern.Says? ==> Allows(facts, f.principal, pattern.principal, f.pred, now))
  }

  ghost predicate SupportedBy(now: nat, facts: iset<Atom>, pattern: Atom, f: Atom, m: Bindings) {
    Supports(now, facts, pattern, f) && Inst(pattern.Args(), m) == f.Args()
  }

  /** A stored fact that defeats a negated literal tried with the bindings `b`. */
  ghost predicate Defeats(now: nat, facts: iset<Atom>, pattern: Atom, b: Bindings, f: Atom) {
    f in facts && Usable(now, pattern, f) && UnifyAtoms(b, pattern, f, false).Some?
  }

  /** The literal holds under `m` when it is reached with the bindings `b`. */
  ghost predicate Holds(ctx: Context, facts: iset<Atom>, lit: Literal, b: Bindings, m: Bindings) {
    if IsCapability(ctx.program, lit) then
      Answered(ctx.oracle, lit.atom, b, Inst(lit.atom.terms, m))
    else if lit.negated then
      forall f :: !Defeats(ctx.now, facts, lit.atom, b, f)
    else
      exists f :: SupportedBy(ctx.now, facts, lit.atom, f, m)
  }

  /** Variables a literal binds. */
  function Binds(lit: Literal): set<string> {
    if lit.negated then {} else Vars(lit.atom.Args())
  }

  /** Variables bound once the first `n` literals have been matched from left to right. */
  function BoundBy(body: seq<Literal>, n: nat): set<string>
    requires n <= |body|
  {
    if n == 0 then {} else BoundBy(body, n - 1) + Binds(body[n - 1])
  }

  lemma {:induction false} BoundByGrows(body: seq<Literal>, m: nat, n: nat)
    requires m <= n <= |body|
    ensures BoundBy(body, m) <= BoundBy(body, n)
  {
    if m < n {
      BoundByGrows(body, m, n - 1);
    }
  }

  // ---------- Clause bodies ----------

  ghost predicate LiteralHolds(ctx: Context, facts: iset<Atom>, body: seq<Literal>, j: nat, b: Bindings)
    requires j < |body|
  {
    Holds(ctx, facts, body[j], Restrict(b, BoundBy(body, j)), b)
  }

  /** `b` binds exactly the variables of the first `n` literals, to ground terms, and satisfies them. */
  ghost predicate PartialSolution(ctx: Context, facts: iset<Atom>, body: seq<Literal>, n: nat, b: Bindings)
    requires n <= |body|
  {
    && b.Keys == BoundBy(body, n) && GroundBindings(b)
    && forall j :: 0 <= j < n ==> LiteralHolds(ctx, facts, body, j, b)
  }

  ghost predicate Solution(ctx: Context, facts: iset<Atom>, body: seq<Literal>, b: Bindings) {
    PartialSolution(ctx, facts, body, |body|, b)
  }

  /** Whether a literal holds depends only on the variables bound up to and including it. */
  lemma HoldsAgree(ctx: Context, facts: iset<Atom>, lit: Literal, b: Bindings, m: Bindings, n: Bindings)
    requires Holds(ctx, facts, lit, b, m)
    requires !lit.negated || IsCapability(ctx.program, lit) ==> Inst(lit.atom.Args(), m) == Inst(lit.atom.Args(), n)
    ensures Holds(ctx, facts, lit, b, n)
  {
    if !IsCapability(ctx.program, lit) && !lit.negated {
      var f :| SupportedBy(ctx.now, facts, lit.atom, f, m);
      assert SupportedBy(ctx.now, facts, lit.atom, f, n);
    }
  }

  lemma RestrictTwice(b: Bindings, c: Bindings, xs: set<string>)
    requires Extends(b, c) && xs <= b.Keys
    ensures Restrict(b, xs) == Restrict(c, xs)
  {
  }

  /** Matching one more literal keeps the earlier ones satisfied. */
  lemma PartialSolutionSnoc(ctx: Context, facts: iset<Atom>, body: seq<Literal>, n: nat, b: Bindings, m: Bindings)
    requires n < |body| && NegationsAllowed(ctx.program, body)
    requires PartialSolution(ctx, facts, body, n, b)
    requires Extends(b, m) && m.Keys == b.Keys + Binds(body[n]) && GroundBindings(m)
    requires Holds(ctx, facts, body[n], b, m)
    ensures PartialSolution(ctx, facts, body, n + 1, m)
  {
    forall j | 0 <= j < n + 1
      ensures LiteralHolds(ctx, facts, body, j, m)
    {
      if j < n {
        BoundByGrows(body, j + 1, n);
        LiteralHoldsExtends(ctx, facts, body, j, b, m);
      } else {
        assert Restrict(m, BoundBy(body, n)) == b;
      }
    }
  }

  lemma LiteralHoldsExtends(ctx: Context, facts: iset<Atom>, body: seq<Literal>, j: nat, b: Bindings, m: Bindings)
    requires j < |body| && NegationAllowed(ctx.program, body[j])
    requires BoundBy(body, j + 1) <= b.Keys && Extends(b, m)
    requires LiteralHolds(ctx, facts, body, j, b)
    ensures LiteralHolds(ctx, facts, body, j, m)
  {
    RestrictTwice(b, m, BoundBy(body, j));
    if !body[j].negated {
      InstExtends(body[j].atom.Args(), b, m);
    }
    HoldsAgree(ctx, facts, body[j], Restrict(b, BoundBy(body, j)), b, m);
  }

  /** Every solution of a prefix passes through a partial solution at each of its literals. */
  lemma SolutionPrefix(ctx: Context, facts: iset<Atom>, body: seq<Literal>, n: nat, k: nat, b: Bindings)
    returns (m: Bindings)
    requires n < k <= |body| && NegationsAllowed(ctx.program, body)
    requires PartialSolution(ctx, facts, body, k, b)
    ensures m == Restrict(b, BoundBy(body, n + 1)) && m.Keys == BoundBy(body, n + 1) && GroundBindings(m)
    ensures Extends(m, b)
    ensures Extends(Restrict(b, BoundBy(body, n)), m)
    ensures Holds(ctx, facts, body[n], Restrict(b, BoundBy(body, n)), m)
  {
    m := Restrict(b, BoundBy(body, n + 1));
    BoundByGrows(body, n + 1, k);
    BoundByGrows(body, n, n + 1);
    assert LiteralHolds(ctx, facts, body, n, b);
    if !body[n].negated {
      InstRestrict(body[n].atom.Args(), b, BoundBy(body, n + 1));
    }
    HoldsAgree(ctx, facts, body[n], Restrict(b, BoundBy(body, n)), b, m);
  }

  // ---------- Validated programs ----------

  /** Only plain predicates that are not capabilities may be negated (src/engine/negation.c:9-19). */
  predicate NegationAllowed(program: seq<Statement>, lit: Literal) {
    lit.negated ==> lit.atom.Predicate? && !IsCapability(program, lit)
  }

  predicate NegationsAllowed(program: seq<Statement>, body: seq<Literal>) {
    forall j :: 0 <= j < |body| ==> NegationAllowed(program, body[j])
  }

  /** Variables of negated literals among the first `n`. */
  function NegatedVars(body: seq<Literal>, n: nat): set<string>
    requires n <= |body|
  {
    if n == 0 then {}
    else NegatedVars(body, n - 1) + (if body[n - 1].negated then Vars(body[n - 1].atom.Args()) else {})
  }

  predicate RangeRestricted(c: Statement)
    requires c.Clause?
  {
    Vars(c.head.Args()) + NegatedVars(c.body, |c.body|) <= BoundBy(c.body, |c.body|)
  }

  predicate ClauseValid(program: seq<Statement>, c: Statement) {
    c.Clause? ==> NegationsAllowed(program, c.body) && RangeRestricted(c)
  }

  predicate Validated(program: seq<Statement>) {
    forall i :: 0 <= i < |program| ==> ClauseValid(program, program[i])
  }

  /** Range restriction is enough: a solution of a validated clause's body makes its head ground. */
  lemma HeadGround(ctx: Context, facts: iset<Atom>, c: Statement, b: Bindings)
    requires c.Clause? && ClauseValid(ctx.program, c) && Solution(ctx, facts, c.body, b)
    ensures InstAtom(c.head, b).Ground()
  {
    InstGround(c.head.Args(), b);
  }

  // ---------- Stages and the least model ----------

  /** An adapter that is called for the literal under these bindings does not answer. */
  ghost predicate CallFails(ctx: Context, lit: Literal, b: Bindings) {
    IsCapability(ctx.program, lit) &&
    ctx.oracle(lit.atom.pred, CallArgs(lit.atom.terms, b), CallMask(lit.atom.terms, b)).None?
  }

  /** So it is when evaluation of clause `c` over the facts comes to literal `j`. */
  ghost predicate CallFailsAt(ctx: Context, facts: iset<Atom>, c: nat, j: nat, b: Bindings) {
    && c < |ctx.program| && ctx.program[c].Clause? && j < |ctx.program[c].body|
    && PartialSolution(ctx, facts, ctx.program[c].body, j, b) && CallFails(ctx, ctx.program[c].body[j], b)
  }

  ghost predicate AdapterFails(ctx: Context, facts: iset<Atom>) {
    exists c: nat, j: nat, b :: CallFailsAt(ctx, facts, c, j, b)
  }

  ghost predicate Fires(ctx: Context, facts: iset<Atom>, i: nat, b: Bindings, a: Atom) {
    && i < |ctx.program| && ctx.program[i].Clause?
    && Solution(ctx, facts, ctx.program[i].body, b) && a == InstAtom(ctx.program[i].head, b)
  }

  ghost predicate Consequence(ctx: Context, facts: iset<Atom>, a: Atom) {
    exists i, b :: Fires(ctx, facts, i, b, a)
  }

  ghost function Next(ctx: Context, facts: iset<Atom>): iset<Atom> {
    facts + iset a: Atom | Consequence(ctx, facts, a)
  }

  /** The facts with a derivation of height at most `n` over the starting facts. */
  ghost function Stage(ctx: Context, start: iset<Atom>, n: nat): iset<Atom> {
    if n == 0 then start else Next(ctx, Stage(ctx, start, n - 1))
  }

  ghost predicate Closed(ctx: Context, facts: iset<Atom>) {
    forall a :: Consequence(ctx, facts, a) ==> a in facts
  }

  ghost predicate Model(ctx: Context, start: iset<Atom>, facts: iset<Atom>) {
    start <= facts && Closed(ctx, facts)
  }

  /** What every model of the program over the starting facts contains. */
  ghost function LeastModel(ctx: Context, start: iset<Atom>): iset<Atom> {
    iset a: Atom | InEveryModel(ctx, start, a)
  }

  ghost predicate InEveryModel(ctx: Context, start: iset<Atom>, a: Atom) {
    forall facts :: Model(ctx, start, facts) ==> a in facts
  }

  predicate PositiveBody(body: seq<Literal>) {
    forall j :: 0 <= j < |body| ==> !body[j].negated
  }

  predicate Positive(program: seq<Statement>) {
    forall i :: 0 <= i < |program| && program[i].Clause? ==> PositiveBody(program[i].body)
  }

  lemma SupportsMonotone(now: nat, facts: iset<Atom>, more: iset<Atom>, pattern: Atom, f: Atom)
    requires facts <= more && Supports(now, facts, pattern, f)
    ensures Supports(now, more, pattern, f)
  {
    if pattern.Says? {
      AllowsMonotone(facts, more, f.principal, pattern.principal, f.pred, now, now);
    }
  }

  lemma HoldsMonotone(ctx: Context, facts: iset<Atom>, more: iset<Atom>, lit: Literal, b: Bindings, m: Bindings)
    requires facts <= more && !lit.negated && Holds(ctx, facts, lit, b, m)
    ensures Holds(ctx, more, lit, b, m)
  {
    if !IsCapability(ctx.program, lit) {
      var f :| SupportedBy(ctx.now, facts, lit.atom, f, m);
      SupportsMonotone(ctx.now, facts, more, lit.atom, f);
      assert SupportedBy(ctx.now, more, lit.atom, f, m);
    }
  }

  lemma SolutionMonotone(ctx: Context, facts: iset<Atom>, more: iset<Atom>, body: seq<Literal>, b: Bindings)
    requires facts <= more && PositiveBody(body) && Solution(ctx, facts, body, b)
    ensures Solution(ctx, more, body, b)
  {
    forall j | 0 <= j < |body|
      ensures LiteralHolds(ctx, more, body, j, b)
    {
      assert LiteralHolds(ctx, facts, body, j, b);
      HoldsMonotone(ctx, facts, more, body[j], Restrict(b, BoundBy(body, j)), b);
    }
  }

  lemma ConsequenceMonotone(ctx: Context, facts: iset<Atom>, more: iset<Atom>, a: Atom)
    requires facts <= more && Positive(ctx.program) && Consequence(ctx, facts, a)
    ensures Consequence(ctx, more, a)
  {
    var i: nat, b: Bindings :| Fires(ctx, facts, i, b, a);
    SolutionMonotone(ctx, facts, more, ctx.program[i].body, b);
    assert Fires(ctx, more, i, b, a);
  }

  lemma {:induction false} StageGrows(ctx: Context, start: iset<Atom>, m: nat, n: nat)
    requires m <= n
    ensures Stage(ctx, start, m) <= Stage(ctx, start, n)
  {
    hide Consequence;
    if m < n {
      StageGrows(ctx, start, m, n - 1);
    }
  }

  /** Once a stage adds nothing, no later one does. */
  lemma {:induction false} StageSettles(ctx: Context, start: iset<Atom>, m: nat, n: nat)
    requires m <= n && Stage(ctx, start, m + 1) == Stage(ctx, start, m)
    ensures Stage(ctx, start, n) == Stage(ctx, start, m)
  {
    hide Next;
    if m < n {
      StageSettles(ctx, start, m, n - 1);
    }
  }

  ghost predicate AllGround(facts: iset<Atom>) {
    forall a :: a in facts ==> a.Ground()
  }

  /** No stage over ground facts holds a fact with a variable. */
  lemma {:induction false} StageGround(ctx: Context, start: iset<Atom>, n: nat)
    requires Validated(ctx.program) && AllGround(start)
    ensures AllGround(Stage(ctx, start, n))
  {
    hide Solution, ClauseValid;
    if n > 0 {
      StageGround(ctx, start, n - 1);
      var facts := Stage(ctx, start, n - 1);
      forall a | Consequence(ctx, facts, a)
        ensures a.Ground()
      {
        var i: nat, b: Bindings :| Fires(ctx, facts, i, b, a);
        HeadGround(ctx, facts, ctx.program[i], b);
      }
    }
  }

  lemma ClosedIsSettled(ctx: Context, facts: iset<Atom>)
    ensures Closed(ctx, facts) <==> Next(ctx, facts) == facts
  {
    if Next(ctx, facts) == facts {
      forall a | Consequence(ctx, facts, a)
        ensures a in facts
      {
        assert a in Next(ctx, facts);
      }
    }
  }

  /** No stage of a negation-free program leaves any of its models. */
  lemma {:induction false} StageInModel(ctx: Context, start: iset<Atom>, n: nat, facts: iset<Atom>)
    requires Positive(ctx.program) && Model(ctx, start, facts)
    ensures Stage(ctx, start, n) <= facts
  {
    if n > 0 {
      StageInModel(ctx, start, n - 1, facts);
      forall a | Consequence(ctx, Stage(ctx, start, n - 1), a)
        ensures a in facts
      {
        ConsequenceMonotone(ctx, Stage(ctx, start, n - 1), facts, a);
      }
    }
  }

  lemma LeastModelIsModel(ctx: Context, start: iset<Atom>)
    requires Positive(ctx.program)
    ensures Model(ctx, start, LeastModel(ctx, start))
  {
    var least := LeastModel(ctx, start);
    forall a | Consequence(ctx, least, a)
      ensures a in least
    {
      forall facts | Model(ctx, start, facts)
        ensures a in facts
      {
        ConsequenceMonotone(ctx, least, facts, a);
      }
    }
  }

  /** A stage that adds nothing is the least model. */
  lemma SettledIsLeastModel(ctx: Context, start: iset<Atom>, n: nat)
    requires Positive(ctx.program) && Closed(ctx, Stage(ctx, start, n))
    ensures Stage(ctx, start, n) == LeastModel(ctx, start)
  {
    StageGrows(ctx, start, 0, n);
    assert Model(ctx, start, Stage(ctx, start, n));
    forall a | a in Stage(ctx, start, n)
      ensures a in LeastModel(ctx, start)
    {
      forall facts | Model(ctx, start, facts)
        ensures a in facts
      {
        StageInModel(ctx, start, n, facts);
      }
    }
  }

  // ---------- Every fact of the least model has a derivation of some finite height ----------

  ghost function Limit(ctx: Context, start: iset<Atom>): iset<Atom> {
    iset n: nat, a | a in Stage(ctx, start, n) :: a
  }

  lemma FirstStage(ctx: Context, start: iset<Atom>, a: Atom) returns (n: nat)
    requires a in Limit(ctx, start)
    ensures a in Stage(ctx, start, n)
  {
    n :| a in Stage(ctx, start, n);
  }

  lemma {:induction false} PathStage(ctx: Context, start: iset<Atom>, p: seq<Atom>) returns (n: nat)
    requires forall i :: 0 <= i < |p| ==> p[i] in Limit(ctx, start)
    ensures forall i :: 0 <= i < |p| ==> p[i] in Stage(ctx, start, n)
  {
    if p == [] {
      n := 0;
    } else {
      var m := PathStage(ctx, start, p[..|p| - 1]);
      var k := FirstStage(ctx, start, p[|p| - 1]);
      n := if m < k then k else m;
      StageGrows(ctx, start, m, n);
      StageGrows(ctx, start, k, n);
      forall i | 0 <= i < |p|
        ensures p[i] in Stage(ctx, start, n)
      {
        if i < |p| - 1 {
          assert p[..|p| - 1][i] == p[i];
        }
      }
    }
  }

  lemma HoldsAtStage(ctx: Context, start: iset<Atom>, lit: Literal, b: Bindings, m: Bindings) returns (n: nat)
    requires !lit.negated && Holds(ctx, Limit(ctx, start), lit, b, m)
    ensures Holds(ctx, Stage(ctx, start, n), lit, b, m)
  {
    if IsCapability(ctx.program, lit) {
      n := 0;
    } else {
      var f :| SupportedBy(ctx.now, Limit(ctx, start), lit.atom, f, m);
      n := FirstStage(ctx, start, f);
      if lit.atom.Says? {
        var p := AllowsCompact(Limit(ctx, start), f.principal, lit.atom.principal, f.pred, ctx.now);
        var k := PathStage(ctx, start, p);
        var j := if n < k then k else n;
        StageGrows(ctx, start, n, j);
        StageGrows(ctx, start, k, j);
        n := j;
      }
      assert SupportedBy(ctx.now, Stage(ctx, start, n), lit.atom, f, m);
    }
  }

  lemma {:induction false} SolutionAtStage(ctx: Context, start: iset<Atom>, body: seq<Literal>, k: nat, b: Bindings)
    returns (n: nat)
    requires k <= |body| && PositiveBody(body) && Solution(ctx, Limit(ctx, start), body, b)
    ensures forall j :: 0 <= j < k ==> LiteralHolds(ctx, Stage(ctx, start, n), body, j, b)
  {
    hide Holds, Stage, Limit;
    if k == 0 {
      n := 0;
    } else {
      var m := SolutionAtStage(ctx, start, body, k - 1, b);
      assert LiteralHolds(ctx, Limit(ctx, start), body, k - 1, b);
      var l := HoldsAtStage(ctx, start, body[k - 1], Restrict(b, BoundBy(body, k - 1)), b);
      n := if m < l then l else m;
      StageGrows(ctx, start, m, n);
      StageGrows(ctx, start, l, n);
      forall j | 0 <= j < k
        ensures LiteralHolds(ctx, Stage(ctx, start, n), body, j, b)
      {
        var i := if j < k - 1 then m else l;
        assert Holds(ctx, Stage(ctx, start, i), body[j], Restrict(b, BoundBy(body, j)), b) by {
          if j < k - 1 {
            assert LiteralHolds(ctx, Stage(ctx, start, m), body, j, b);
          }
        }
        HoldsMonotone(ctx, Stage(ctx, start, i), Stage(ctx, start, n), body[j], Restrict(b, BoundBy(body, j)), b);
      }
    }
  }

  /** The least model is exactly the union of the stages. */
  lemma LeastModelIsLimit(ctx: Context, start: iset<Atom>)
    requires Positive(ctx.program)
    ensures LeastModel(ctx, start) == Limit(ctx, start)
  {
    var limit := Limit(ctx, start);
    forall a | Consequence(ctx, limit, a)
      ensures a in limit
    {
      var i: nat, b: Bindings :| Fires(ctx, limit, i, b, a);
      var body := ctx.program[i].body;
      var n := SolutionAtStage(ctx, start, body, |body|, b);
      assert Fires(ctx, Stage(ctx, start, n), i, b, a);
      assert a in Stage(ctx, start, n + 1);
    }
    assert start == Stage(ctx, start, 0);
    assert Model(ctx, start, limit);
    forall a | a in limit
      ensures a in LeastModel(ctx, start)
    {
      var n := FirstStage(ctx, start, a);
      forall facts | Model(ctx, start, facts)
        ensures a in facts
      {
        StageInModel(ctx, start, n, facts);
      }
    }
  }

  // ---------- The order of body literals ----------

  /** Literals whose outcome depends on what is bound when they are reached. */
  predicate Guarded(program: seq<Statement>, lit: Literal) {
    lit.negated || IsCapability(program, lit)
  }

  /** The same literal; a negation or adapter call finds the same of its own variables bound. */
  predicate PlacedAt(program: seq<Statement>, body: seq<Literal>, j: nat, other: seq<Literal>, k: nat) {
    && j < |body| && k < |other| && other[k] == body[j]
    && (Guarded(program, body[j]) ==>
          BoundBy(body, j) * Vars(body[j].atom.Args()) == BoundBy(other, k) * Vars(body[j].atom.Args()))
  }

  ghost predicate HasPlace(program: seq<Statement>, body: seq<Literal>, j: nat, other: seq<Literal>) {
    exists k: nat :: PlacedAt(program, body, j, other, k)
  }

  ghost predicate Placed(program: seq<Statement>, body: seq<Literal>, other: seq<Literal>) {
    forall j: nat :: j < |body| ==> HasPlace(program, body, j, other)
  }

  ghost predicate Rearranged(program: seq<Statement>, body: seq<Literal>, other: seq<Literal>) {
    Placed(program, body, other) && Placed(program, other, body)
  }

  lemma {:induction false} BoundByMembers(body: seq<Literal>, n: nat)
    requires n <= |body|
    ensures forall x :: x in BoundBy(body, n) <==> exists j :: 0 <= j < n && x in Binds(body[j])
  {
    if n > 0 {
      BoundByMembers(body, n - 1);
    }
  }

  lemma PlacedBinds(program: seq<Statement>, body: seq<Literal>, other: seq<Literal>)
    requires Placed(program, body, other)
    ensures BoundBy(body, |body|) <= BoundBy(other, |other|)
  {
    BoundByMembers(body, |body|);
    BoundByMembers(other, |other|);
    forall x | x in BoundBy(body, |body|)
      ensures x in BoundBy(other, |other|)
    {
      var j: nat :| j < |body| && x in Binds(body[j]);
      assert HasPlace(program, body, j, other);
      var k: nat :| PlacedAt(program, body, j, other, k);
    }
  }

  ghost predicate AgreeOn(b: Bindings, c: Bindings, xs: set<string>) {
    forall x :: x in xs ==> (x in b <==> x in c) && (x in b ==> b[x] == c[x])
  }

  /** Whether a ground candidate unifies depends only on the bindings of the pattern's own variables. */
  lemma UnifyLocal(b: Bindings, c: Bindings, ps: seq<Term>, cs: seq<Term>)
    requires GroundTerms(cs) && AgreeOn(b, c, Vars(ps)) && UnifyTerms(b, ps, cs).Some?
    ensures UnifyTerms(c, ps, cs).Some?
  {
    UnifyTermsExact(b, ps, cs);
    UnifyTermsExact(c, ps, cs);
    var s := UnifyTerms(b, ps, cs).value;
    var t := c + Restrict(s, Vars(ps));
    InstAgree(ps, s, t);
    assert Unifier(c, ps, cs, t);
  }

  lemma DefeatsLocal(now: nat, facts: iset<Atom>, pattern: Atom, b: Bindings, c: Bindings, f: Atom)
    requires AllGround(facts) && AgreeOn(b, c, Vars(pattern.Args())) && Defeats(now, facts, pattern, b, f)
    ensures Defeats(now, facts, pattern, c, f)
  {
    UnifyLocal(b, c, pattern.Args(), f.Args());
  }

  /** A literal looks at no bindings but those of its own variables. */
  lemma HoldsLocal(ctx: Context, facts: iset<Atom>, lit: Literal, b: Bindings, c: Bindings, m: Bindings)
    requires AllGround(facts) && Holds(ctx, facts, lit, b, m)
    requires Guarded(ctx.program, lit) ==> AgreeOn(b, c, Vars(lit.atom.Args()))
    ensures Holds(ctx, facts, lit, c, m)
  {
    var ts := lit.atom.Args();
    if IsCapability(ctx.program, lit) {
      forall i | 0 <= i < |ts|
        ensures CallArgs(ts, b)[i] == CallArgs(ts, c)[i] && CallMask(ts, b)[i] == CallMask(ts, c)[i]
      {
        if ts[i].Variable? {
          VarIn(ts, i);
        }
      }
      assert CallArgs(ts, b) == CallArgs(ts, c) && CallMask(ts, b) == CallMask(ts, c);
    } else if lit.negated {
      forall f
        ensures !Defeats(ctx.now, facts, lit.atom, c, f)
      {
        if Defeats(ctx.now, facts, lit.atom, c, f) {
          DefeatsLocal(ctx.now, facts, lit.atom, c, b, f);
        }
      }
    }
  }

  /** A rearranged body has the same solutions. */
  lemma OrderIrrelevant(ctx: Context, facts: iset<Atom>, body: seq<Literal>, other: seq<Literal>, b: Bindings)
    requires AllGround(facts) && Rearranged(ctx.program, body, other)
    ensures Solution(ctx, facts, body, b) <==> Solution(ctx, facts, other, b)
  {
    hide LiteralHolds, PlacedAt;
    PlacedBinds(ctx.program, body, other);
    PlacedBinds(ctx.program, other, body);
    if Solution(ctx, facts, body, b) {
      OrderOneWay(ctx, facts, body, other, b);
    }
    if Solution(ctx, facts, other, b) {
      OrderOneWay(ctx, facts, other, body, b);
    }
  }

  lemma AgreeRestrict(b: Bindings, xs: set<string>, ys: set<string>, vs: set<string>)
    requires xs * vs == ys * vs
    ensures AgreeOn(Restrict(b, xs), Restrict(b, ys), vs)
  {
    forall x | x in vs
      ensures x in xs <==> x in ys
    {
      assert x in xs * vs <==> x in ys * vs;
    }
  }

  lemma OrderOneWay(ctx: Context, facts: iset<Atom>, body: seq<Literal>, other: seq<Literal>, b: Bindings)
    requires AllGround(facts) && Placed(ctx.program, other, body) && Solution(ctx, facts, body, b)
    ensures forall k :: 0 <= k < |other| ==> LiteralHolds(ctx, facts, other, k, b)
  {
    hide Holds;
    forall k | 0 <= k < |other|
      ensures LiteralHolds(ctx, facts, other, k, b)
    {
      assert HasPlace(ctx.program, other, k, body);
      var j: nat :| PlacedAt(ctx.program, other, k, body, j);
      assert LiteralHolds(ctx, facts, body, j, b);
      if Guarded(ctx.program, body[j]) {
        AgreeRestrict(b, BoundBy(body, j), BoundBy(other, k), Vars(body[j].atom.Args()));
      }
      HoldsLocal(ctx, facts, body[j], Restrict(b, BoundBy(body, j)), Restrict(b, BoundBy(other, k)), b);
    }
  }

  /** Two programs that differ only in the arrangement of clause bodies. */
  ghost predicate SameUpToOrder(p: seq<Statement>, q: seq<Statement>) {
    |p| == |q| && forall i :: 0 <= i < |p| ==>
      p[i] == q[i] || (p[i].Clause? && q[i].Clause? && p[i].head == q[i].head && Rearranged(p, p[i].body, q[i].body))
  }

  lemma SameCapabilities(p: seq<Statement>, q: seq<Statement>, lit: Literal)
    requires SameUpToOrder(p, q)
    ensures IsCapability(p, lit) <==> IsCapability(q, lit)
  {
    hide Rearranged;
    if lit.atom.Predicate? {
      var c := Capability(lit.atom.pred, |lit.atom.terms|);
      if c in p {
        var i: nat :| i < |p| && p[i] == c;
        assert q[i] == c;
      }
      if c in q {
        var i: nat :| i < |q| && q[i] == c;
        assert p[i] == c;
      }
    }
  }

  /** Whether a body is satisfied depends on the program only through its capability declarations. */
  lemma SolutionSameCapabilities(ctx: Context, other: Context, facts: iset<Atom>, body: seq<Literal>, b: Bindings)
    requires ctx.now == other.now && ctx.oracle == other.oracle
    requires forall lit :: IsCapability(ctx.program, lit) <==> IsCapability(other.program, lit)
    ensures Solution(ctx, facts, body, b) <==> Solution(other, facts, body, b)
  {
    hide IsCapability;
    assert forall j :: 0 <= j < |body| ==>
      (LiteralHolds(ctx, facts, body, j, b) <==> LiteralHolds(other, facts, body, j, b));
  }

  lemma RearrangedFires(ctx: Context, q: seq<Statement>, facts: iset<Atom>, i: nat, b: Bindings, a: Atom)
    requires SameUpToOrder(ctx.program, q) && AllGround(facts)
    ensures Fires(ctx, facts, i, b, a) <==> Fires(ctx.(program := q), facts, i, b, a)
  {
    hide Solution, IsCapability, Rearranged;
    var other := ctx.(program := q);
    forall lit
      ensures IsCapability(ctx.program, lit) <==> IsCapability(q, lit)
    {
      SameCapabilities(ctx.program, q, lit);
    }
    if i < |q| && ctx.program[i].Clause? {
      SolutionSameCapabilities(ctx, other, facts, q[i].body, b);
      if ctx.program[i] != q[i] {
        OrderIrrelevant(ctx, facts, ctx.program[i].body, q[i].body, b);
      }
    }
  }

  /** The arrangement of bodies changes neither what one pass derives nor what a whole run leaves. */
  lemma {:induction false} RearrangedStages(ctx: Context, q: seq<Statement>, start: iset<Atom>, n: nat)
    requires SameUpToOrder(ctx.program, q) && Validated(ctx.program) && AllGround(start)
    ensures Stage(ctx, start, n) == Stage(ctx.(program := q), start, n)
  {
    hide Next, SameUpToOrder, Validated, AllGround;
    if n > 0 {
      RearrangedStages(ctx, q, start, n - 1);
      StageGround(ctx, start, n - 1);
      RearrangedNext(ctx, q, Stage(ctx, start, n - 1));
    }
  }

  lemma RearrangedNext(ctx: Context, q: seq<Statement>, facts: iset<Atom>)
    requires SameUpToOrder(ctx.program, q) && AllGround(facts)
    ensures Next(ctx, facts) == Next(ctx.(program := q), facts)
  {
    hide Fires, SameUpToOrder;
    var other := ctx.(program := q);
    forall a
      ensures Consequence(ctx, facts, a) <==> Consequence(other, facts, a)
    {
      if Consequence(ctx, facts, a) {
        var i: nat, b: Bindings :| Fires(ctx, facts, i, b, a);
        RearrangedFires(ctx, q, facts, i, b, a);
      }
      if Consequence(other, facts, a) {
        var i: nat, b: Bindings :| Fires(other, facts, i, b, a);
        RearrangedFires(ctx, q, facts, i, b, a);
      }
    }
  }

  /** Literals that neither negate nor call an adapter. */
  predicate PlainBody(program: seq<Statement>, body: seq<Literal>) {
    forall j :: 0 <= j < |body| ==> !Guarded(program, body[j])
  }

  /** Permuting a block of positive non-capability literals, whatever stands around it, is a rearrangement. */
  lemma PlainOrderIrrelevant(program: seq<Statement>, pre: seq<Literal>, p: seq<Literal>, q: seq<Literal>,
                             post: seq<Literal>)
    requires PlainBody(program, p) && multiset(p) == multiset(q)
    ensures Rearranged(program, pre + p + post, pre + q + post)
  {
    PermutedMembers(p, q);
    assert |p| == |multiset(p)| == |multiset(q)| == |q|;
    PlainPlaced(program, pre, p, q, post);
    forall j | 0 <= j < |q|
      ensures !Guarded(program, q[j])
    {
      assert q[j] in p;
    }
    PlainPlaced(program, pre, q, p, post);
  }

  lemma PermutedMembers(p: seq<Literal>, q: seq<Literal>)
    requires multiset(p) == multiset(q)
    ensures forall lit :: lit in p <==> lit in q
  {
    forall lit: Literal
      ensures lit in p <==> lit in q
    {
      assert lit in multiset(p) <==> lit in multiset(q);
    }
  }

  lemma PlainPlaced(program: seq<Statement>, pre: seq<Literal>, p: seq<Literal>, q: seq<Literal>, post: seq<Literal>)
    requires PlainBody(program, p) && |p| == |q| && forall lit :: lit in p <==> lit in q
    ensures Placed(program, pre + p + post, pre + q + post)
  {
    hide Guarded, BoundBy;
    var body, other := pre + p + post, pre + q + post;
    forall j: nat | j < |body|
      ensures HasPlace(program, body, j, other)
    {
      if |pre| <= j < |pre| + |p| {
        assert p[j - |pre|] in q;
        var k: nat :| k < |q| && q[k] == p[j - |pre|];
        assert PlacedAt(program, body, j, other, |pre| + k);
      } else {
        OutsideBlock(pre, p, q, post, j);
        assert PlacedAt(program, body, j, other, j);
      }
    }
  }

  lemma OutsideBlock(pre: seq<Literal>, p: seq<Literal>, q: seq<Literal>, post: seq<Literal>, j: nat)
    requires |p| == |q| && (forall lit :: lit in p <==> lit in q)
    requires j < |pre| || |pre| + |p| <= j < |pre + p + post|
    ensures (pre + p + post)[j] == (pre + q + post)[j]
    ensures BoundBy(pre + p + post, j) == BoundBy(pre + q + post, j)
  {
    OutsideBlockOneWay(pre, p, q, post, j);
    OutsideBlockOneWay(pre, q, p, post, j);
  }

  lemma OutsideBlockOneWay(pre: seq<Literal>, p: seq<Literal>, q: seq<Literal>, post: seq<Literal>, j: nat)
    requires |p| == |q| && (forall lit :: lit in p <==> lit in q)
    requires j < |pre| || |pre| + |p| <= j < |pre + p + post|
    ensures BoundBy(pre + p + post, j) <= BoundBy(pre + q + post, j)
  {
    hide BoundBy;
    var body, other := pre + p + post, pre + q + post;
    BoundByMembers(body, j);
    BoundByMembers(other, j);
    forall x | x in BoundBy(body, j)
      ensures x in BoundBy(other, j)
    {
      var i: nat :| i < j && x in Binds(body[i]);
      if |pre| <= i < |pre| + |p| {
        assert p[i - |pre|] in q;
        var k: nat :| k < |q| && q[k] == p[i - |pre|];
        assert other[|pre| + k] == body[i];
      } else {
        assert other[i] == body[i];
      }
    }
  }
}
