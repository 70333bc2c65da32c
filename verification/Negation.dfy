/**
 * Negation. Evaluation computes strata and never uses them (src/engine/eval.c:433-436), so a
 * negated literal is tested against whatever is stored when the clause is tried.
 */
module Negation {
  import opened Syntax
  import opened Unify
  import opened Tables
  import opened Semantics
  import opened EngineCore
  import Strata

  // ---------- When the result is nevertheless the perfect model ----------

  predicate SamePredicate(a: Atom, c: Atom) {
    a.Predicate? && c.Predicate? && a.pred == c.pred && |a.terms| == |c.terms|
  }

  ghost predicate NegatedAt(program: seq<Statement>, c: nat, l: nat) {
    c < |program| && program[c].Clause? && l < |program[c].body| && program[c].body[l].negated
  }

  /** Some clause negates this atom's predicate. */
  ghost predicate NegatedSomewhere(program: seq<Statement>, a: Atom) {
    exists c: nat, l: nat :: NegatedAt(program, c, l) && SamePredicate(program[c].body[l].atom, a)
  }

  predicate HasPositiveStored(program: seq<Statement>, body: seq<Literal>) {
    exists j :: 0 <= j < |body| && !body[j].negated && !IsCapability(program, body[j])
  }

  /**
   * Negated predicates are defined by bodiless clauses only, no clause with a negation consists of
   * negations and adapter calls alone, and negated variables are bound by earlier literals.
   */
  ghost predicate SemiPositive(program: seq<Statement>) {
    && (forall d :: 0 <= d < |program| && program[d].Clause? && NegatedSomewhere(program, program[d].head) ==>
          program[d].body == [])
    && (forall c: nat, l: nat :: NegatedAt(program, c, l) ==> HasPositiveStored(program, program[c].body))
    && (forall c: nat, l: nat :: NegatedAt(program, c, l) ==>
          Vars(program[c].body[l].atom.Args()) <= BoundBy(program[c].body, l))
  }

  /** The facts that the program states outright. */
  ghost function Base(ctx: Context): iset<Atom> {
    iset i: nat, a | StatedAt(ctx.program, i, a) :: a
  }

  ghost predicate StatedAt(program: seq<Statement>, i: nat, a: Atom) {
    i < |program| && program[i].Clause? && program[i].body == [] && a == InstAtom(program[i].head, map[])
  }

  /** A negated literal in the usual sense: its instance matches no fact of `fixed`. */
  ghost predicate Absent(now: nat, fixed: iset<Atom>, pattern: Atom, m: Bindings) {
    forall f ::
      !(f in fixed && Usable(now, pattern, f) && SameShape(pattern, f, false) && Inst(pattern.Args(), m) == f.Args())
  }

  ghost predicate HoldsOver(ctx: Context, fixed: iset<Atom>, facts: iset<Atom>, body: seq<Literal>, j: nat, b: Bindings)
    requires j < |body|
  {
    if body[j].negated then Absent(ctx.now, fixed, body[j].atom, b) else LiteralHolds(ctx, facts, body, j, b)
  }

  /** The clause derives `a` from `facts`, negations being read in `fixed`. */
  ghost predicate FiresOver(ctx: Context, fixed: iset<Atom>, facts: iset<Atom>, i: nat, b: Bindings, a: Atom) {
    && i < |ctx.program| && ctx.program[i].Clause?
    && b.Keys == BoundBy(ctx.program[i].body, |ctx.program[i].body|) && GroundBindings(b)
    && (forall j :: 0 <= j < |ctx.program[i].body| ==> HoldsOver(ctx, fixed, facts, ctx.program[i].body, j, b))
    && a == InstAtom(ctx.program[i].head, b)
  }

  ghost predicate ClosedOver(ctx: Context, fixed: iset<Atom>, facts: iset<Atom>) {
    forall i, b, a :: FiresOver(ctx, fixed, facts, i, b, a) ==> a in facts
  }

  ghost predicate InEveryClosed(ctx: Context, start: iset<Atom>, a: Atom) {
    forall facts :: start <= facts && ClosedOver(ctx, Base(ctx), facts) ==> a in facts
  }

  /** The base facts settle every negation; the rest is the least set closed under the clauses. */
  ghost function LeastOver(ctx: Context, start: iset<Atom>): iset<Atom> {
    iset a: Atom | InEveryClosed(ctx, start, a)
  }

  ghost function PerfectModel(ctx: Context): iset<Atom> {
    LeastOver(ctx, iset{})
  }

  /** A ground fact that is stated outright if any clause negates its predicate. */
  ghost predicate Fitting(ctx: Context, a: Atom) {
    a.Ground() && (NegatedSomewhere(ctx.program, a) ==> a in Base(ctx))
  }

  /** Facts that settle every negation the way the base facts do. */
  ghost predicate Ready(ctx: Context, facts: iset<Atom>) {
    Base(ctx) <= facts && forall a :: a in facts ==> Fitting(ctx, a)
  }

  /** No facts yet, or such facts: where every run of the program stays. */
  ghost predicate Steady(ctx: Context, facts: iset<Atom>) {
    facts == iset{} || Ready(ctx, facts)
  }

  ghost function Grown(ctx: Context, n: nat): iset<Atom> {
    Stage(ctx, iset{}, n)
  }

  /** With its variables bound beforehand, a negated literal is tested on its ground instance. */
  lemma BoundNegation(ctx: Context, facts: iset<Atom>, lit: Literal, b: Bindings, m: Bindings)
    requires lit.negated && NegationAllowed(ctx.program, lit) && AllGround(facts)
    requires Vars(lit.atom.Args()) <= b.Keys && Extends(b, m)
    ensures Holds(ctx, facts, lit, b, m) <==> Absent(ctx.now, facts, lit.atom, m)
  {
    InstExtends(lit.atom.Args(), b, m);
    forall f | f in facts && Usable(ctx.now, lit.atom, f)
      ensures UnifyAtoms(b, lit.atom, f, false).Some? <==>
        SameShape(lit.atom, f, false) && Inst(lit.atom.Args(), m) == f.Args()
    {
      UnifyExact(b, lit.atom, f, false);
      if Inst(lit.atom.Args(), m) == f.Args() {
        assert Unifier(b, lit.atom.Args(), f.Args(), b);
      }
      forall s | Unifier(b, lit.atom.Args(), f.Args(), s)
        ensures Inst(lit.atom.Args(), m) == f.Args()
      {
        InstExtends(lit.atom.Args(), b, s);
      }
    }
    forall f
      ensures Defeats(ctx.now, facts, lit.atom, b, f) <==>
        && f in facts && Usable(ctx.now, lit.atom, f)
        && SameShape(lit.atom, f, false) && Inst(lit.atom.Args(), m) == f.Args()
    {
    }
  }

  lemma NegatedIsStated(ctx: Context, facts: iset<Atom>, i: nat, b: Bindings, a: Atom)
    requires SemiPositive(ctx.program) && Fires(ctx, facts, i, b, a) && NegatedSomewhere(ctx.program, a)
    ensures a in Base(ctx)
  {
    hide LiteralHolds, Holds, GroundBindings;
    var head := ctx.program[i].head;
    var c: nat, l: nat :| NegatedAt(ctx.program, c, l) && SamePredicate(ctx.program[c].body[l].atom, a);
    assert SamePredicate(ctx.program[c].body[l].atom, head);
    assert NegatedSomewhere(ctx.program, head);
    assert b == map[];
    assert StatedAt(ctx.program, i, a);
  }

  lemma BaseFires(ctx: Context, facts: iset<Atom>, i: nat)
    requires i < |ctx.program| && ctx.program[i].Clause? && ctx.program[i].body == []
    ensures Fires(ctx, facts, i, map[], InstAtom(ctx.program[i].head, map[]))
  {
  }

  lemma BaseIsNext(ctx: Context, facts: iset<Atom>)
    ensures Base(ctx) <= Next(ctx, facts)
  {
    hide Fires;
    forall a | a in Base(ctx)
      ensures a in Next(ctx, facts)
    {
      var i: nat :| StatedAt(ctx.program, i, a);
      BaseFires(ctx, facts, i);
    }
  }

  lemma NothingStored(ctx: Context, body: seq<Literal>, j: nat, b: Bindings)
    requires j < |body| && !body[j].negated && !IsCapability(ctx.program, body[j])
    ensures !LiteralHolds(ctx, iset{}, body, j, b)
  {
  }

  /** Over the empty store no clause with a negation fires. */
  lemma NothingNegatedYet(ctx: Context, i: nat, b: Bindings, a: Atom)
    requires SemiPositive(ctx.program) && Fires(ctx, iset{}, i, b, a)
    ensures PositiveBody(ctx.program[i].body)
  {
    var body := ctx.program[i].body;
    if l :| 0 <= l < |body| && body[l].negated {
      assert NegatedAt(ctx.program, i, l);
      var j :| 0 <= j < |body| && !body[j].negated && !IsCapability(ctx.program, body[j]);
      NothingStored(ctx, body, j, b);
    }
  }

  lemma FiresOverMonotone(ctx: Context, fixed: iset<Atom>, facts: iset<Atom>, more: iset<Atom>, i: nat, b: Bindings,
                          a: Atom)
    requires facts <= more && FiresOver(ctx, fixed, facts, i, b, a)
    ensures FiresOver(ctx, fixed, more, i, b, a)
  {
    hide Holds;
    var body := ctx.program[i].body;
    forall j | 0 <= j < |body|
      ensures HoldsOver(ctx, fixed, more, body, j, b)
    {
      assert HoldsOver(ctx, fixed, facts, body, j, b);
      if !body[j].negated {
        HoldsMonotone(ctx, facts, more, body[j], Restrict(b, BoundBy(body, j)), b);
      }
    }
  }

  /** What one negated literal says over ready facts is what it says over the base facts. */
  lemma ReadyNegation(ctx: Context, facts: iset<Atom>, i: nat, j: nat, b: Bindings)
    requires Validated(ctx.program) && SemiPositive(ctx.program) && Ready(ctx, facts) && NegatedAt(ctx.program, i, j)
    requires b.Keys == BoundBy(ctx.program[i].body, |ctx.program[i].body|)
    ensures LiteralHolds(ctx, facts, ctx.program[i].body, j, b) <==>
      Absent(ctx.now, Base(ctx), ctx.program[i].body[j].atom, b)
  {
    hide Base, UnifyAtoms;
    var body := ctx.program[i].body;
    assert ClauseValid(ctx.program, ctx.program[i]);
    BoundByGrows(body, j, |body|);
    BoundNegation(ctx, facts, body[j], Restrict(b, BoundBy(body, j)), b);
    forall f | f in facts && SameShape(body[j].atom, f, false)
      ensures f in Base(ctx)
    {
      assert SamePredicate(body[j].atom, f);
      assert Fitting(ctx, f);
    }
  }

  /** Over ready facts a clause fires exactly when it does with its negations read in the base facts. */
  lemma ReadyFires(ctx: Context, facts: iset<Atom>, i: nat, b: Bindings, a: Atom)
    requires Validated(ctx.program) && SemiPositive(ctx.program) && Ready(ctx, facts)
    ensures Fires(ctx, facts, i, b, a) <==> FiresOver(ctx, Base(ctx), facts, i, b, a)
  {
    hide Validated, SemiPositive, Ready, Base, LiteralHolds, Absent;
    if i < |ctx.program| && ctx.program[i].Clause? {
      var body := ctx.program[i].body;
      if b.Keys == BoundBy(body, |body|) {
        forall j | 0 <= j < |body|
          ensures LiteralHolds(ctx, facts, body, j, b) <==> HoldsOver(ctx, Base(ctx), facts, body, j, b)
        {
          if body[j].negated {
            ReadyNegation(ctx, facts, i, j, b);
          }
        }
      }
    }
  }

  /** A clause that fires during a run also fires over any larger set, its negations read in the base facts. */
  lemma FiresIntoClosed(ctx: Context, facts: iset<Atom>, i: nat, b: Bindings, a: Atom, more: iset<Atom>)
    requires Validated(ctx.program) && SemiPositive(ctx.program) && Steady(ctx, facts)
    requires Fires(ctx, facts, i, b, a) && facts <= more
    ensures FiresOver(ctx, Base(ctx), more, i, b, a)
  {
    hide Base, LiteralHolds, Ready, SemiPositive, Validated;
    if Ready(ctx, facts) {
      ReadyFires(ctx, facts, i, b, a);
    } else {
      NothingNegatedYet(ctx, i, b, a);
    }
    FiresOverMonotone(ctx, Base(ctx), facts, more, i, b, a);
  }

  lemma NextIsReady(ctx: Context, facts: iset<Atom>)
    requires Validated(ctx.program) && SemiPositive(ctx.program) && Steady(ctx, facts)
    ensures Ready(ctx, Next(ctx, facts))
  {
    hide Base, Solution, ClauseValid, SemiPositive;
    BaseIsNext(ctx, facts);
    forall a | a in Next(ctx, facts) && a !in facts
      ensures Fitting(ctx, a)
    {
      var i: nat, b: Bindings :| Fires(ctx, facts, i, b, a);
      HeadGround(ctx, facts, ctx.program[i], b);
      if NegatedSomewhere(ctx.program, a) {
        NegatedIsStated(ctx, facts, i, b, a);
      }
    }
  }

  /** Facts of a negated predicate stay base facts, and all base facts are there from the first pass on. */
  lemma {:induction false} StagesStaySteady(ctx: Context, start: iset<Atom>, n: nat)
    requires Validated(ctx.program) && SemiPositive(ctx.program) && Steady(ctx, start)
    ensures Steady(ctx, Stage(ctx, start, n)) && (n > 0 || Ready(ctx, start) ==> Ready(ctx, Stage(ctx, start, n)))
  {
    hide Ready, SemiPositive, Validated, Next;
    if n > 0 {
      StagesStaySteady(ctx, start, n - 1);
      NextIsReady(ctx, Stage(ctx, start, n - 1));
    }
  }

  /** No stage leaves a set that is closed with the negations read in the base facts. */
  lemma {:induction false} StageInClosed(ctx: Context, start: iset<Atom>, n: nat, facts: iset<Atom>)
    requires Validated(ctx.program) && SemiPositive(ctx.program) && Steady(ctx, start)
    requires start <= facts && ClosedOver(ctx, Base(ctx), facts)
    ensures Stage(ctx, start, n) <= facts
  {
    hide Fires, FiresOver, SemiPositive, Validated, Base, Steady;
    if n > 0 {
      StageInClosed(ctx, start, n - 1, facts);
      StagesStaySteady(ctx, start, n - 1);
      var stage := Stage(ctx, start, n - 1);
      forall a | Consequence(ctx, stage, a)
        ensures a in facts
      {
        var i: nat, b: Bindings :| Fires(ctx, stage, i, b, a);
        FiresIntoClosed(ctx, stage, i, b, a, facts);
      }
    }
  }

  /** Ready facts that are closed are closed with the negations read in the base facts. */
  lemma SettledIsClosedOver(ctx: Context, facts: iset<Atom>)
    requires Validated(ctx.program) && SemiPositive(ctx.program) && Ready(ctx, facts) && Closed(ctx, facts)
    ensures ClosedOver(ctx, Base(ctx), facts)
  {
    hide Fires, FiresOver, SemiPositive, Validated, Base, Ready;
    forall i: nat, b, a | FiresOver(ctx, Base(ctx), facts, i, b, a)
      ensures a in facts
    {
      ReadyFires(ctx, facts, i, b, a);
      assert Consequence(ctx, facts, a);
    }
  }

  /** The least set is itself closed. */
  lemma LeastOverIsClosed(ctx: Context, start: iset<Atom>)
    ensures start <= LeastOver(ctx, start) && ClosedOver(ctx, Base(ctx), LeastOver(ctx, start))
  {
    hide FiresOver, Base;
    var least := LeastOver(ctx, start);
    forall i: nat, b, a | FiresOver(ctx, Base(ctx), least, i, b, a)
      ensures a in least
    {
      forall facts | start <= facts && ClosedOver(ctx, Base(ctx), facts)
        ensures a in facts
      {
        FiresOverMonotone(ctx, Base(ctx), least, facts, i, b, a);
      }
    }
  }

  /** Without negation this is the least model. */
  lemma PositiveLeast(ctx: Context, start: iset<Atom>)
    requires Positive(ctx.program)
    ensures SemiPositive(ctx.program) && LeastOver(ctx, start) == LeastModel(ctx, start)
  {
    hide Holds, Base;
    forall facts
      ensures ClosedOver(ctx, Base(ctx), facts) <==> Closed(ctx, facts)
    {
      forall i: nat, b, a
        ensures FiresOver(ctx, Base(ctx), facts, i, b, a) <==> Fires(ctx, facts, i, b, a)
      {
        PositiveFires(ctx, Base(ctx), facts, i, b, a);
      }
      SameFiring(ctx, Base(ctx), facts);
    }
    forall a
      ensures a in LeastOver(ctx, start) <==> a in LeastModel(ctx, start)
    {
      SameClosed(ctx, start, a);
    }
  }

  lemma PositiveFires(ctx: Context, fixed: iset<Atom>, facts: iset<Atom>, i: nat, b: Bindings, a: Atom)
    requires Positive(ctx.program)
    ensures FiresOver(ctx, fixed, facts, i, b, a) <==> Fires(ctx, facts, i, b, a)
  {
    hide LiteralHolds;
    if i < |ctx.program| && ctx.program[i].Clause? {
      var body := ctx.program[i].body;
      assert forall j :: 0 <= j < |body| ==>
        (HoldsOver(ctx, fixed, facts, body, j, b) <==> LiteralHolds(ctx, facts, body, j, b));
    }
  }

  lemma SameFiring(ctx: Context, fixed: iset<Atom>, facts: iset<Atom>)
    requires forall i: nat, b, a :: FiresOver(ctx, fixed, facts, i, b, a) <==> Fires(ctx, facts, i, b, a)
    ensures ClosedOver(ctx, fixed, facts) <==> Closed(ctx, facts)
  {
    hide Fires, FiresOver;
    if Closed(ctx, facts) {
      forall i: nat, b, a | FiresOver(ctx, fixed, facts, i, b, a)
        ensures a in facts
      {
        assert Fires(ctx, facts, i, b, a);
        assert Consequence(ctx, facts, a);
      }
    }
    if ClosedOver(ctx, fixed, facts) {
      forall a | Consequence(ctx, facts, a)
        ensures a in facts
      {
        var i: nat, b: Bindings :| Fires(ctx, facts, i, b, a);
        assert FiresOver(ctx, fixed, facts, i, b, a);
      }
    }
  }

  lemma SameClosed(ctx: Context, start: iset<Atom>, a: Atom)
    requires forall facts :: ClosedOver(ctx, Base(ctx), facts) <==> Closed(ctx, facts)
    ensures InEveryClosed(ctx, start, a) <==> InEveryModel(ctx, start, a)
  {
    hide Closed, ClosedOver, Base;
    if InEveryModel(ctx, start, a) {
      forall facts | start <= facts && ClosedOver(ctx, Base(ctx), facts)
        ensures a in facts
      {
        assert Model(ctx, start, facts);
      }
    }
  }

  /** A run that comes to rest leaves the least set around what it started from. */
  lemma SettledIsLeastOver(ctx: Context, start: iset<Atom>, n: nat)
    requires Validated(ctx.program) && SemiPositive(ctx.program) && Steady(ctx, start) && n > 0
    requires Closed(ctx, Stage(ctx, start, n))
    ensures Stage(ctx, start, n) == LeastOver(ctx, start)
  {
    hide Closed, ClosedOver, Base, SemiPositive, Validated, Ready;
    var facts := Stage(ctx, start, n);
    StagesStaySteady(ctx, start, n);
    SettledIsClosedOver(ctx, facts);
    StageGrows(ctx, start, 0, n);
    forall a | a in facts
      ensures InEveryClosed(ctx, start, a)
    {
      forall other | start <= other && ClosedOver(ctx, Base(ctx), other)
        ensures a in other
      {
        StageInClosed(ctx, start, n, other);
      }
    }
  }

  /**
   * A run from empty relations that comes to rest on a semi-positive program leaves exactly the
   * perfect model, although the strata are never used.
   */
  lemma SettledIsPerfect(ctx: Context)
    requires Validated(ctx.program) && SemiPositive(ctx.program)
    requires Closed(ctx, Stage(ctx, iset{}, 64))
    ensures Stage(ctx, iset{}, 64) == PerfectModel(ctx)
  {
    hide Closed, LeastOver, SemiPositive, Validated, Ready;
    SettledIsLeastOver(ctx, iset{}, 64);
  }

  /** The perfect model justifies its own negations: reading them in the model changes nothing. */
  lemma PerfectIsSupported(ctx: Context, facts: iset<Atom>, i: nat, b: Bindings, a: Atom)
    requires Validated(ctx.program) && SemiPositive(ctx.program)
    requires Closed(ctx, Stage(ctx, iset{}, 64)) && facts == PerfectModel(ctx)
    ensures FiresOver(ctx, facts, facts, i, b, a) <==> FiresOver(ctx, Base(ctx), facts, i, b, a)
  {
    hide Closed, PerfectModel, SemiPositive, Validated, Base, LiteralHolds, Absent;
    SettledIsPerfect(ctx);
    StagesStaySteady(ctx, iset{}, 64);
    if i < |ctx.program| && ctx.program[i].Clause? {
      var body := ctx.program[i].body;
      forall j | 0 <= j < |body|
        ensures HoldsOver(ctx, facts, facts, body, j, b) <==> HoldsOver(ctx, Base(ctx), facts, body, j, b)
      {
        if body[j].negated {
          AbsentReady(ctx, facts, i, j, b);
        }
      }
    }
  }

  lemma AbsentReady(ctx: Context, facts: iset<Atom>, i: nat, j: nat, b: Bindings)
    requires Validated(ctx.program) && Ready(ctx, facts) && NegatedAt(ctx.program, i, j)
    ensures Absent(ctx.now, facts, ctx.program[i].body[j].atom, b) <==>
      Absent(ctx.now, Base(ctx), ctx.program[i].body[j].atom, b)
  {
    hide Base;
    var pattern := ctx.program[i].body[j].atom;
    assert ClauseValid(ctx.program, ctx.program[i]);
    forall f | f in facts && SameShape(pattern, f, false)
      ensures f in Base(ctx)
    {
      assert SamePredicate(pattern, f);
      assert Fitting(ctx, f);
    }
  }

  // ---------- Where stratified negation is not what is computed ----------

  function Plain(name: string, t: Term): Atom {
    Predicate(name, [t], Untimed)
  }

  /** q(a). p(a). b(X) :- q(X). r(X) :- p(X), not b(X). */
  function EarlyNegation(): seq<Statement> {
    var x := Variable("X");
    [ Clause(Plain("q", Symbol("a")), []),
      Clause(Plain("p", Symbol("a")), []),
      Clause(Plain("b", x), [Literal(false, Plain("q", x))]),
      Clause(Plain("r", x), [Literal(false, Plain("p", x)), Literal(true, Plain("b", x))]) ]
  }

  lemma OneArgument(name: string, t: Term, b: Bindings)
    ensures InstAtom(Plain(name, t), b) == Plain(name, InstTerm(t, b))
    ensures Vars([t]) == if t.Variable? then {t.name} else {}
  {
    assert Inst([t], b) == [InstTerm(t, b)];
    assert t in [t];
  }

  /** A bodiless ground clause is stored by the first pass. */
  lemma StatedStored(ctx: Context, i: nat, name: string, t: Term)
    requires i < |ctx.program| && ctx.program[i] == Clause(Plain(name, t), []) && !t.Variable?
    ensures Plain(name, t) in Grown(ctx, 1)
  {
    OneArgument(name, t, map[]);
    assert StatedAt(ctx.program, i, Plain(name, t));
    BaseIsNext(ctx, Grown(ctx, 0));
  }

  /** One positive literal about the variable of the head, over a stage that stores its instance. */
  lemma CopyHolds(ctx: Context, facts: iset<Atom>, name: string, t: Term)
    requires Plain(name, t) in facts && !t.Variable?
    requires !IsCapability(ctx.program, Literal(false, Plain(name, Variable("X"))))
    ensures Holds(ctx, facts, Literal(false, Plain(name, Variable("X"))), map[], map["X" := t])
  {
    var pattern := Plain(name, Variable("X"));
    OneArgument(name, Variable("X"), map["X" := t]);
    assert SupportedBy(ctx.now, facts, pattern, Plain(name, t), map["X" := t]);
  }

  /**
   * This program passes validation and has no cycle through negation, yet a run stores both b(a)
   * and r(a), and in what it stores no clause supports r(a) any more.
   */
  lemma EarlyNegationIsUnsupported(now: nat, oracle: Oracle)
    ensures var ctx := Context(EarlyNegation(), now, oracle);
      && Validated(ctx.program)
      && !Strata.NegativeCycle(Strata.Edges(ctx.program, ["q/1", "p/1", "b/1", "r/1"]))
      && var facts := Stage(ctx, iset{}, 64);
      && Plain("b", Symbol("a")) in facts && Plain("r", Symbol("a")) in facts
      && forall i: nat, b :: !Fires(ctx, facts, i, b, Plain("r", Symbol("a")))
  {
    var ctx := Context(EarlyNegation(), now, oracle);
    var a, x := Symbol("a"), Variable("X");
    EarlyNegationIsValid(now, oracle);
    EarlyNegationIsStratified();
    StatedStored(ctx, 0, "q", a);
    StatedStored(ctx, 1, "p", a);
    EarlyFires(ctx);
    StageGrows(ctx, iset{}, 2, 64);
    var facts := Stage(ctx, iset{}, 64);
    forall i: nat, b
      ensures !Fires(ctx, facts, i, b, Plain("r", a))
    {
      if Fires(ctx, facts, i, b, Plain("r", a)) {
        Unsupported(ctx, facts, i, b);
      }
    }
  }

  /** Once b(a) is stored no clause gives r(a). */
  lemma Unsupported(ctx: Context, facts: iset<Atom>, i: nat, b: Bindings)
    requires ctx.program == EarlyNegation() && Plain("b", Symbol("a")) in facts
    ensures !Fires(ctx, facts, i, b, Plain("r", Symbol("a")))
  {
    var a, x := Symbol("a"), Variable("X");
    if i == 3 {
      var body := ctx.program[3].body;
      OneArgument("r", x, b);
      OneArgument("p", x, b);
      assert BoundBy(body, 0) == {} && BoundBy(body, 1) == {"X"};
      var b0 := Restrict(b, {"X"});
      assert UnifyUpTo(b0, [x], [a], 0) == Some(b0);
      assert b0.Keys == {"X"} && b0["X"] == a ==> Defeats(ctx.now, facts, Plain("b", x), b0, Plain("b", a));
      assert b.Keys == {"X"} && b["X"] == a ==> !LiteralHolds(ctx, facts, body, 1, b);
    }
  }

  lemma EarlyNegationIsValid(now: nat, oracle: Oracle)
    ensures Validated(EarlyNegation())
  {
    var program := EarlyNegation();
    var x := Variable("X");
    OneArgument("q", x, map[]);
    OneArgument("q", Symbol("a"), map[]);
    forall i | 0 <= i < |program|
      ensures ClauseValid(program, program[i])
    {
      var body := program[i].body;
      assert BoundBy(body, 0) == {} && NegatedVars(body, 0) == {};
      if |body| > 0 {
        assert BoundBy(body, 1) == {"X"} && NegatedVars(body, 1) == {};
      }
      if |body| > 1 {
        assert NegatedVars(body, 2) == {"X"} && BoundBy(body, 2) == {"X"};
      }
    }
  }

  lemma EarlyNegationIsStratified()
    ensures !Strata.NegativeCycle(Strata.Edges(EarlyNegation(), ["q/1", "p/1", "b/1", "r/1"]))
  {
    hide RelationKey, IsCapability;
    var program, keys := EarlyNegation(), ["q/1", "p/1", "b/1", "r/1"];
    var edges := Strata.Edges(program, keys);
    KeysOf(Variable("X"));
    KeysOf(Symbol("a"));
    forall s | s in edges
      ensures s.from < 4 && s.to < 4 && [0, 0, 0, 1][s.from] + Strata.Weight(s.negated) <= [0, 0, 0, 1][s.to]
    {
      var c: nat, l: nat :| Strata.DependsAt(program, keys, c, l, s);
      assert (c == 2 && l == 0) || (c == 3 && l < 2);
      assert keys[0][0] == 'q' && keys[1][0] == 'p' && keys[2][0] == 'b' && keys[3][0] == 'r';
    }
    Strata.StratifiedHasNoNegativeCycle(edges, [0, 0, 0, 1]);
  }

  lemma KeysOf(t: Term)
    ensures RelationKey(Plain("q", t)) == "q/1" && RelationKey(Plain("p", t)) == "p/1"
    ensures RelationKey(Plain("b", t)) == "b/1" && RelationKey(Plain("r", t)) == "r/1"
  {
  }

  /** In the second pass both remaining clauses fire, b(a) not being stored yet. */
  lemma EarlyFires(ctx: Context)
    requires ctx.program == EarlyNegation()
    requires Plain("q", Symbol("a")) in Grown(ctx, 1) && Plain("p", Symbol("a")) in Grown(ctx, 1)
    ensures Plain("b", Symbol("a")) in Grown(ctx, 2) && Plain("r", Symbol("a")) in Grown(ctx, 2)
  {
    hide Fires;
    CopyFires(ctx);
    DenialFires(ctx);
    assert Grown(ctx, 2) == Next(ctx, Grown(ctx, 1));
  }

  /** b(X) :- q(X). */
  lemma CopyFires(ctx: Context)
    requires ctx.program == EarlyNegation() && Plain("q", Symbol("a")) in Grown(ctx, 1)
    ensures Fires(ctx, Grown(ctx, 1), 2, map["X" := Symbol("a")], Plain("b", Symbol("a")))
  {
    hide Holds, Grown;
    var a, x := Symbol("a"), Variable("X");
    var m: Bindings := map["X" := a];
    OneArgument("b", x, m);
    OneArgument("q", x, m);
    CopyHolds(ctx, Grown(ctx, 1), "q", a);
    var body := ctx.program[2].body;
    assert BoundBy(body, 0) == {} && BoundBy(body, 1) == {"X"};
    assert Restrict(m, {}) == map[];
    assert LiteralHolds(ctx, Grown(ctx, 1), body, 0, m);
  }

  /** r(X) :- p(X), not b(X). */
  lemma DenialFires(ctx: Context)
    requires ctx.program == EarlyNegation() && Plain("p", Symbol("a")) in Grown(ctx, 1)
    ensures Fires(ctx, Grown(ctx, 1), 3, map["X" := Symbol("a")], Plain("r", Symbol("a")))
  {
    hide Holds, Grown;
    var a, x := Symbol("a"), Variable("X");
    var m: Bindings := map["X" := a];
    OneArgument("r", x, m);
    OneArgument("p", x, m);
    CopyHolds(ctx, Grown(ctx, 1), "p", a);
    DenialHolds(ctx, m);
    var body := ctx.program[3].body;
    assert BoundBy(body, 0) == {} && BoundBy(body, 1) == {"X"} && BoundBy(body, 2) == {"X"};
    assert Restrict(m, {}) == map[] && Restrict(m, {"X"}) == m;
    assert LiteralHolds(ctx, Grown(ctx, 1), body, 0, m);
    assert LiteralHolds(ctx, Grown(ctx, 1), body, 1, m);
  }

  lemma DenialHolds(ctx: Context, m: Bindings)
    requires ctx.program == EarlyNegation()
    ensures Holds(ctx, Grown(ctx, 1), Literal(true, Plain("b", Variable("X"))), m, m)
  {
    hide Grown;
    forall f
      ensures !Defeats(ctx.now, Grown(ctx, 1), Plain("b", Variable("X")), m, f)
    {
      if f.Predicate? && f.pred == "b" {
        NoBYet(ctx, f);
      }
    }
  }

  lemma NoBYet(ctx: Context, f: Atom)
    requires ctx.program == EarlyNegation() && f.Predicate? && f.pred == "b"
    ensures f !in Grown(ctx, 1)
  {
    hide Holds, LiteralHolds;
    if f in Grown(ctx, 1) {
      assert Grown(ctx, 1) == Next(ctx, Grown(ctx, 0));
      var i: nat, b: Bindings :| Fires(ctx, Grown(ctx, 0), i, b, f);
      assert i == 2;
      NothingStored(ctx, ctx.program[2].body, 0, b);
    }
  }

  // ---------- The other two conditions are needed as well ----------

  /** b(a). r(a) :- not b(a). */
  function DenialAlone(): seq<Statement> {
    var a := Symbol("a");
    [ Clause(Plain("b", a), []), Clause(Plain("r", a), [Literal(true, Plain("b", a))]) ]
  }

  /** A clause of negations alone fires in the first pass, before the facts it denies are stored. */
  lemma DenialAloneIsEarly(now: nat, oracle: Oracle)
    ensures Validated(DenialAlone())
    ensures var ctx := Context(DenialAlone(), now, oracle);
      Plain("r", Symbol("a")) in Stage(ctx, iset{}, 64) && Plain("r", Symbol("a")) !in PerfectModel(ctx)
  {
    hide Grown;
    var ctx, a := Context(DenialAlone(), now, oracle), Symbol("a");
    DenialAloneIsValid();
    OneArgument("b", a, map[]);
    OneArgument("r", a, map[]);
    var body := ctx.program[1].body;
    assert BoundBy(body, 0) == {} && BoundBy(body, 1) == {};
    assert LiteralHolds(ctx, iset{}, body, 0, map[]);
    assert Fires(ctx, iset{}, 1, map[], Plain("r", a));
    InFirstStage(ctx, 1, map[], Plain("r", a));
    DenialKept(ctx);
  }

  /** The perfect model is no larger than the stated fact. */
  lemma DenialKept(ctx: Context)
    requires ctx.program == DenialAlone()
    ensures Plain("r", Symbol("a")) !in PerfectModel(ctx)
  {
    hide HoldsOver, Base;
    var a := Symbol("a");
    var facts := iset{Plain("b", a)};
    OneArgument("b", a, map[]);
    assert StatedAt(ctx.program, 0, Plain("b", a));
    forall i: nat, b, f | FiresOver(ctx, Base(ctx), facts, i, b, f)
      ensures f in facts
    {
      OneArgument("b", a, b);
      BaseHas(ctx, 0, Plain("b", a));
      DeniedByBase(ctx, facts, b);
    }
    assert ClosedOver(ctx, Base(ctx), facts) && Plain("r", a) !in facts;
  }

  lemma BaseHas(ctx: Context, i: nat, a: Atom)
    requires StatedAt(ctx.program, i, a)
    ensures a in Base(ctx)
  {
  }

  lemma DenialAloneIsValid()
    ensures Validated(DenialAlone())
  {
    var program := DenialAlone();
    OneArgument("b", Symbol("a"), map[]);
    assert BoundBy(program[1].body, 0) == {} && BoundBy(program[1].body, 1) == {};
    assert NegatedVars(program[1].body, 0) == {} && NegatedVars(program[1].body, 1) == {};
    assert BoundBy(program[0].body, 0) == {} && NegatedVars(program[0].body, 0) == {};
  }

  lemma DenialFirstIsValid()
    ensures Validated(DenialFirst())
  {
    var program := DenialFirst();
    OneArgument("b", Variable("X"), map[]);
    OneArgument("b", Symbol("c"), map[]);
    OneArgument("p", Symbol("a"), map[]);
    forall i | 0 <= i < |program|
      ensures ClauseValid(program, program[i])
    {
      var body := program[i].body;
      assert BoundBy(body, 0) == {} && NegatedVars(body, 0) == {};
      if i == 2 {
        assert BoundBy(body, 1) == {} && NegatedVars(body, 1) == {"X"};
        assert BoundBy(body, 2) == {"X"} && NegatedVars(body, 2) == {"X"};
      }
    }
  }

  lemma DeniedByBase(ctx: Context, facts: iset<Atom>, b: Bindings)
    requires ctx.program == DenialAlone() && Plain("b", Symbol("a")) in Base(ctx)
    ensures !HoldsOver(ctx, Base(ctx), facts, ctx.program[1].body, 0, b)
  {
    OneArgument("b", Symbol("a"), b);
  }

  lemma InFirstStage(ctx: Context, i: nat, b: Bindings, a: Atom)
    requires Fires(ctx, iset{}, i, b, a)
    ensures a in Stage(ctx, iset{}, 64)
  {
    hide Fires;
    assert Stage(ctx, iset{}, 1) == Next(ctx, Stage(ctx, iset{}, 0));
    StageGrows(ctx, iset{}, 1, 64);
  }

  /** b(c). p(a). r(X) :- not b(X), p(X). */
  function DenialFirst(): seq<Statement> {
    var x := Variable("X");
    [ Clause(Plain("b", Symbol("c")), []),
      Clause(Plain("p", Symbol("a")), []),
      Clause(Plain("r", x), [Literal(true, Plain("b", x)), Literal(false, Plain("p", x))]) ]
  }

  /** Before its variable is bound, a negated literal asks that nothing match at all, and r(a) is missed. */
  lemma DenialFirstMisses(now: nat, oracle: Oracle)
    ensures Validated(DenialFirst())
    ensures var ctx := Context(DenialFirst(), now, oracle);
      Plain("r", Symbol("a")) !in Stage(ctx, iset{}, 64) && Plain("r", Symbol("a")) in PerfectModel(ctx)
  {
    var ctx := Context(DenialFirst(), now, oracle);
    DenialFirstIsValid();
    NeverFires(ctx, 64);
    forall facts | ClosedOver(ctx, Base(ctx), facts)
      ensures Plain("r", Symbol("a")) in facts
    {
      FiresPerfectly(ctx, facts);
    }
  }

  lemma {:induction false} NeverFires(ctx: Context, n: nat)
    requires ctx.program == DenialFirst()
    ensures Plain("r", Symbol("a")) !in Grown(ctx, n)
  {
    hide Fires;
    if n > 0 {
      NeverFires(ctx, n - 1);
      if Plain("r", Symbol("a")) in Grown(ctx, n) {
        var i: nat, b: Bindings :| Fires(ctx, Grown(ctx, n - 1), i, b, Plain("r", Symbol("a")));
        if n > 1 {
          StatedStored(ctx, 0, "b", Symbol("c"));
          StageGrows(ctx, iset{}, 1, n - 1);
          AnyDefeats(ctx, Grown(ctx, n - 1), i, b);
        } else {
          NothingToDeny(ctx, i, b);
        }
      }
    }
  }

  lemma NothingToDeny(ctx: Context, i: nat, b: Bindings)
    requires ctx.program == DenialFirst()
    ensures !Fires(ctx, Grown(ctx, 0), i, b, Plain("r", Symbol("a")))
  {
    if i == 2 {
      NothingStored(ctx, ctx.program[2].body, 1, b);
    }
  }

  lemma AnyDefeats(ctx: Context, facts: iset<Atom>, i: nat, b: Bindings)
    requires ctx.program == DenialFirst() && Plain("b", Symbol("c")) in facts
    ensures !Fires(ctx, facts, i, b, Plain("r", Symbol("a")))
  {
    if i == 2 {
      var body, x := ctx.program[2].body, Variable("X");
      assert BoundBy(body, 0) == {} && Restrict(b, {}) == map[];
      var none: Bindings := map[];
      assert UnifyUpTo(none, [x], [Symbol("c")], 0) == Some(none);
      assert Defeats(ctx.now, facts, Plain("b", x), map[], Plain("b", Symbol("c")));
      assert !LiteralHolds(ctx, facts, body, 0, b);
    }
  }

  lemma FiresPerfectly(ctx: Context, facts: iset<Atom>)
    requires ctx.program == DenialFirst() && ClosedOver(ctx, Base(ctx), facts)
    ensures Plain("r", Symbol("a")) in facts
  {
    hide Holds, Grown;
    var a, x := Symbol("a"), Variable("X");
    var m: Bindings := map["X" := a];
    OneArgument("p", a, map[]);
    OneArgument("b", Symbol("c"), map[]);
    assert FiresOver(ctx, Base(ctx), facts, 1, map[], Plain("p", a));
    OneArgument("r", x, m);
    OneArgument("p", x, m);
    OneArgument("b", x, m);
    CopyHolds(ctx, facts, "p", a);
    var body := ctx.program[2].body;
    assert BoundBy(body, 0) == {} && BoundBy(body, 1) == {} && BoundBy(body, 2) == {"X"};
    assert Restrict(m, {}) == map[];
    assert HoldsOver(ctx, Base(ctx), facts, body, 0, m);
    assert LiteralHolds(ctx, facts, body, 1, m);
    assert HoldsOver(ctx, Base(ctx), facts, body, 1, m);
    assert FiresOver(ctx, Base(ctx), facts, 2, m, Plain("r", a));
  }
}
