/**
 * Whether a run comes to rest within its 64 passes (include/etb/eval.h, src/engine/eval.c:430-471):
 * a bound that can be computed before the run, and how tight it is.
 */
module Rest {
  import opened Syntax
  import opened Unify
  import opened Tables
  import opened Semantics
  import opened EngineCore
  import opened Negation
  import opened Sessions

  // ---------- Few enough facts to add ----------

  /** The facts of `s` that a run has added within `n` passes. */
  ghost function Added(ctx: Context, start: iset<Atom>, s: set<Atom>, n: nat): set<Atom> {
    set a | a in s && a in Stage(ctx, start, n) && a !in start
  }

  lemma ClosedStays(ctx: Context, start: iset<Atom>, n: nat)
    ensures Closed(ctx, Stage(ctx, start, n)) ==> Closed(ctx, Stage(ctx, start, n + 1))
  {
    hide Closed, Next;
    ClosedIsSettled(ctx, Stage(ctx, start, n));
    StageStep(ctx, start, n);
  }

  /** As long as a run is not at rest, every pass adds a fact. */
  lemma {:induction false} PassesFill(ctx: Context, start: iset<Atom>, s: set<Atom>, n: nat)
    requires !Closed(ctx, Stage(ctx, start, n)) && Within(Stage(ctx, start, n + 1), start, s)
    ensures |Added(ctx, start, s, n + 1)| > n
  {
    hide Closed, Next;
    var stage, next := Stage(ctx, start, n), Stage(ctx, start, n + 1);
    StageGrows(ctx, start, 0, n);
    StageStep(ctx, start, n);
    StageGrows(ctx, start, n, n + 1);
    ClosedIsSettled(ctx, stage);
    var a :| a in next && a !in stage;
    if n > 0 {
      ClosedStays(ctx, start, n - 1);
      PassesFill(ctx, start, s, n - 1);
    }
    assert Added(ctx, start, s, n) + {a} <= Added(ctx, start, s, n + 1);
    SubsetSize(Added(ctx, start, s, n) + {a}, Added(ctx, start, s, n + 1));
  }

  ghost predicate Within(facts: iset<Atom>, start: iset<Atom>, s: set<Atom>) {
    forall a :: a in facts ==> a in start || a in s
  }

  /** A run that can add at most `n` facts is at rest after `n` passes, whatever the program negates. */
  lemma FewFactsRest(ctx: Context, start: iset<Atom>, s: set<Atom>, n: nat)
    requires Within(Stage(ctx, start, n + 1), start, s) && |s| <= n
    ensures Closed(ctx, Stage(ctx, start, n))
  {
    hide Closed, Stage;
    if !Closed(ctx, Stage(ctx, start, n)) {
      PassesFill(ctx, start, s, n);
      SubsetSize(Added(ctx, start, s, n + 1), s);
    }
  }

  /** So 64 passes reach the least model if that adds at most 64 facts. */
  lemma SmallModelIsReached(ctx: Context, start: iset<Atom>, s: set<Atom>)
    requires Positive(ctx.program) && Within(LeastModel(ctx, start), start, s) && |s| <= 64
    ensures Stage(ctx, start, 64) == LeastModel(ctx, start)
  {
    hide Closed, LeastModel, Stage, Positive;
    LeastModelIsModel(ctx, start);
    StageInModel(ctx, start, 65, LeastModel(ctx, start));
    FewFactsRest(ctx, start, s, 64);
    SettledIsLeastModel(ctx, start, 64);
  }

  // ---------- A bound known before the run ----------

  ghost predicate TermsFrom(cs: set<Term>, l: seq<Term>) {
    forall i :: 0 <= i < |l| ==> l[i] in cs
  }

  /** The arguments of every fact are among these terms. */
  ghost predicate FactsFrom(cs: set<Term>, facts: iset<Atom>) {
    forall a :: a in facts ==> TermsFrom(cs, a.Args())
  }

  ghost predicate RepliesFrom(cs: set<Term>, oracle: Oracle) {
    forall name, args, mask :: ReplyFrom(cs, oracle(name, args, mask))
  }

  ghost predicate ReplyFrom(cs: set<Term>, reply: Option<Reply>) {
    reply.Some? ==> forall tuple :: tuple in reply.value.tuples ==> TermsFrom(cs, tuple)
  }

  ghost predicate ConstantsFrom(cs: set<Term>, ts: seq<Term>) {
    forall i :: 0 <= i < |ts| && !ts[i].Variable? ==> ts[i] in cs
  }

  /** The terms that a run can put into facts: those of the clause heads, the start and the replies. */
  ghost predicate Constants(ctx: Context, start: iset<Atom>, cs: set<Term>) {
    && FactsFrom(cs, start) && RepliesFrom(cs, ctx.oracle)
    && forall i :: 0 <= i < |ctx.program| && ctx.program[i].Clause? ==> ConstantsFrom(cs, ctx.program[i].head.Args())
  }

  /** The list has the head's own constants in their places. */
  predicate FitsHead(head: Atom, l: seq<Term>) {
    |l| == |head.Args()| && forall i :: 0 <= i < |l| && !head.Args()[i].Variable? ==> l[i] == head.Args()[i]
  }

  /** All instances of the clause heads over the given terms. */
  function HeadInstances(program: seq<Statement>, cs: set<Term>): set<Atom> {
    set i, l | 0 <= i < |program| && program[i].Clause? && l in TermLists(cs, |program[i].head.Args()|) &&
               FitsHead(program[i].head, l) ::
      WithArgs(program[i].head, l)
  }

  /** A literal binds its variables to terms of the facts and replies. */
  lemma LiteralBinds(ctx: Context, facts: iset<Atom>, cs: set<Term>, lit: Literal, b: Bindings, m: Bindings, x: string)
    requires FactsFrom(cs, facts) && RepliesFrom(cs, ctx.oracle) && Holds(ctx, facts, lit, b, m)
    requires !lit.negated && x in Vars(lit.atom.Args()) && x in m
    ensures m[x] in cs
  {
    var ts := lit.atom.Args();
    var t :| t in ts && t.Variable? && t.name == x;
    var i :| 0 <= i < |ts| && ts[i] == t;
    assert Inst(ts, m)[i] == m[x];
    if IsCapability(ctx.program, lit) {
      assert ReplyFrom(cs, ctx.oracle(lit.atom.pred, CallArgs(ts, b), CallMask(ts, b)));
      assert TermsFrom(cs, Inst(ts, m));
    } else {
      var f :| SupportedBy(ctx.now, facts, lit.atom, f, m);
      assert TermsFrom(cs, f.Args());
    }
  }

  lemma SolutionBinds(ctx: Context, facts: iset<Atom>, cs: set<Term>, body: seq<Literal>, b: Bindings, x: string)
    requires FactsFrom(cs, facts) && RepliesFrom(cs, ctx.oracle) && Solution(ctx, facts, body, b)
    requires x in BoundBy(body, |body|)
    ensures b[x] in cs
  {
    hide Holds, FactsFrom, RepliesFrom;
    BoundByMembers(body, |body|);
    var j :| 0 <= j < |body| && x in Binds(body[j]);
    assert LiteralHolds(ctx, facts, body, j, b);
    LiteralBinds(ctx, facts, cs, body[j], Restrict(b, BoundBy(body, j)), b, x);
  }

  /** Whatever fires derives one of those head instances. */
  lemma FiredInstance(ctx: Context, start: iset<Atom>, facts: iset<Atom>, cs: set<Term>, i: nat, b: Bindings, a: Atom)
    requires Validated(ctx.program) && Constants(ctx, start, cs) && FactsFrom(cs, facts) && Fires(ctx, facts, i, b, a)
    ensures a in HeadInstances(ctx.program, cs) && TermsFrom(cs, a.Args())
  {
    hide FactsFrom, RepliesFrom, Holds, NegationsAllowed, NegatedVars;
    var head, body := ctx.program[i].head, ctx.program[i].body;
    assert ClauseValid(ctx.program, ctx.program[i]);
    forall k | 0 <= k < |a.Args()|
      ensures a.Args()[k] in cs
    {
      if head.Args()[k].Variable? {
        VarIn(head.Args(), k);
        SolutionBinds(ctx, facts, cs, body, b, head.Args()[k].name);
      } else {
        assert ConstantsFrom(cs, head.Args());
      }
    }
    assert a.Args() in TermLists(cs, |head.Args()|);
    assert a == WithArgs(head, a.Args()) && FitsHead(head, a.Args());
  }

  lemma {:induction false} StageFrom(ctx: Context, start: iset<Atom>, cs: set<Term>, n: nat)
    requires Validated(ctx.program) && Constants(ctx, start, cs)
    ensures FactsFrom(cs, Stage(ctx, start, n)) && Within(Stage(ctx, start, n), start, HeadInstances(ctx.program, cs))
  {
    hide Fires, Validated, RepliesFrom, HeadInstances, TermsFrom, ConstantsFrom;
    if n > 0 {
      StageFrom(ctx, start, cs, n - 1);
      var stage := Stage(ctx, start, n - 1);
      forall a | Consequence(ctx, stage, a)
        ensures TermsFrom(cs, a.Args()) && a in HeadInstances(ctx.program, cs)
      {
        var i: nat, b: Bindings :| Fires(ctx, stage, i, b, a);
        FiredInstance(ctx, start, stage, cs, i, b, a);
      }
    }
  }

  /**
   * Known before the run: with at most 64 instances of clause heads over the terms that heads, starting
   * facts and replies provide, a run of any valid program is at rest when it stops.
   */
  lemma FewInstancesRest(ctx: Context, start: iset<Atom>, cs: set<Term>)
    requires Validated(ctx.program) && Constants(ctx, start, cs) && |HeadInstances(ctx.program, cs)| <= 64
    ensures Closed(ctx, Stage(ctx, start, 64))
  {
    hide Validated, Constants, HeadInstances, Closed, Stage, FactsFrom, Within;
    StageFrom(ctx, start, cs, 65);
    FewFactsRest(ctx, start, HeadInstances(ctx.program, cs), 64);
  }

  // ---------- Sessions ----------

  predicate EndsWithRun(ops: seq<Op>) {
    ops != [] && ops[|ops| - 1] == Run
  }

  lemma {:induction false} SessionFrom(ctx: Context, ops: seq<Op>, cs: set<Term>)
    requires Validated(ctx.program) && Constants(ctx, Imported(ops), cs)
    ensures FactsFrom(cs, Session(ctx, ops))
  {
    hide Validated, RepliesFrom, ConstantsFrom, TermsFrom;
    if ops != [] {
      var before, op := ops[..|ops| - 1], ops[|ops| - 1];
      assert ops == before + [op];
      assert Imported(before) <= Imported(ops);
      SessionFrom(ctx, before, cs);
      if op.Run? {
        StageFrom(ctx, Session(ctx, before), cs, 64);
      } else {
        assert Elements(op.answers) <= Imported(ops);
      }
    }
  }

  /** Every session of such a program is at rest whenever it ends with a fixpoint. */
  lemma SmallSessionRests(ctx: Context, ops: seq<Op>, cs: set<Term>)
    requires Validated(ctx.program) && Constants(ctx, Imported(ops), cs)
    requires |HeadInstances(ctx.program, cs)| <= 64 && EndsWithRun(ops)
    ensures Closed(ctx, Session(ctx, ops))
  {
    hide Validated, HeadInstances, Closed, Stage, RepliesFrom, ConstantsFrom, FactsFrom, Imported;
    var before := ops[..|ops| - 1];
    assert ops == before + [Run];
    ImportsShrink(before, Run, cs);
    SessionFrom(ctx, before, cs);
    FewInstancesRest(ctx, Session(ctx, before), cs);
    RunStepIs(ctx, before);
  }

  lemma ImportsShrink(before: seq<Op>, op: Op, cs: set<Term>)
    requires FactsFrom(cs, Imported(before + [op]))
    ensures FactsFrom(cs, Imported(before))
  {
    assert Imported(before) <= Imported(before + [op]);
  }

  /** Confluence without a condition on the outcome. */
  lemma SmallConfluence(ctx: Context, ops: seq<Op>, other: seq<Op>, cs: set<Term>)
    requires Validated(ctx.program) && Constants(ctx, Imported(ops), cs)
    requires |HeadInstances(ctx.program, cs)| <= 64 && Imported(ops) == Imported(other)
    requires EndsWithRun(ops) && EndsWithRun(other)
    requires Positive(ctx.program) ||
      (SemiPositive(ctx.program) && RunsFirst(ops) && RunsFirst(other) && FittingImports(ctx, ops))
    ensures Session(ctx, ops) == Session(ctx, other)
  {
    hide Validated, HeadInstances, Closed, Session, Constants, Imported, SemiPositive, Positive, FittingImports;
    SmallSessionRests(ctx, ops, cs);
    SmallSessionRests(ctx, other, cs);
    if Positive(ctx.program) {
      Confluence(ctx, ops, other);
    } else {
      SteadyConfluence(ctx, ops, other);
    }
  }

  // ---------- How tight the bound is ----------

  function Link(k: nat): Atom {
    Predicate("p", [Integer(k)], Untimed)
  }

  /** p(0). p(1) :- p(0). and so on, `m` clauses in all. */
  function Chain(m: nat): seq<Statement> {
    seq(m, (k: nat) => Clause(Link(k), if k == 0 then [] else [Literal(false, Link(k - 1))]))
  }

  lemma LinkInstance(k: nat, b: Bindings)
    ensures InstAtom(Link(k), b) == Link(k) && Vars(Link(k).terms) == {}
  {
    assert Inst(Link(k).terms, b) == Link(k).terms;
  }

  lemma ChainIsValid(m: nat)
    ensures Positive(Chain(m)) && Validated(Chain(m))
  {
    var program := Chain(m);
    forall i: nat | i < m
      ensures ClauseValid(program, program[i])
    {
      LinkInstance(i, map[]);
      var body := program[i].body;
      assert NegatedVars(body, 0) == {};
      if i > 0 {
        assert NegatedVars(body, 1) == {};
      }
    }
  }

  lemma NoAdapter(m: nat, k: nat)
    ensures !IsCapability(Chain(m), Literal(false, Link(k)))
  {
  }

  lemma LinkFires(ctx: Context, m: nat, facts: iset<Atom>, k: nat)
    requires ctx.program == Chain(m) && k < m && (k > 0 ==> Link(k - 1) in facts)
    ensures Fires(ctx, facts, k, map[], Link(k))
  {
    hide IsCapability;
    LinkInstance(k, map[]);
    var body := ctx.program[k].body;
    if k > 0 {
      LinkInstance(k - 1, map[]);
      NoAdapter(m, k - 1);
      assert SupportedBy(ctx.now, facts, Link(k - 1), Link(k - 1), map[]);
      assert BoundBy(body, 0) == {} && BoundBy(body, 1) == {};
      assert LiteralHolds(ctx, facts, body, 0, map[]);
    }
  }

  lemma LinkNeeds(ctx: Context, m: nat, facts: iset<Atom>, k: nat, b: Bindings, a: Atom)
    requires ctx.program == Chain(m) && Fires(ctx, facts, k, b, a) && forall c :: c in facts ==> c.when.Untimed?
    ensures k < m && a == Link(k) && (k > 0 ==> Link(k - 1) in facts)
  {
    hide IsCapability;
    LinkInstance(k, b);
    if k > 0 {
      NoAdapter(m, k - 1);
      LinkInstance(k - 1, b);
      assert LiteralHolds(ctx, facts, ctx.program[k].body, 0, b);
      var f :| SupportedBy(ctx.now, facts, Link(k - 1), f, b);
    }
  }

  /** Each pass adds one link. */
  lemma {:induction false} ChainStage(ctx: Context, m: nat, n: nat, a: Atom)
    requires ctx.program == Chain(m)
    ensures a in Stage(ctx, iset{}, n) <==> exists k: nat :: k < n && k < m && a == Link(k)
  {
    hide Fires;
    if n > 0 {
      var stage := Stage(ctx, iset{}, n - 1);
      forall c
        ensures c in stage <==> exists k: nat :: k < n - 1 && k < m && c == Link(k)
      {
        ChainStage(ctx, m, n - 1, c);
      }
      forall i: nat, b | Fires(ctx, stage, i, b, a)
        ensures i < n && i < m && a == Link(i)
      {
        LinkNeeds(ctx, m, stage, i, b, a);
      }
      if k: nat :| k < n && k < m && a == Link(k) {
        LinkFires(ctx, m, stage, k);
      }
    }
  }

  /** 64 passes reach the least model of the chain exactly up to 64 links. */
  lemma ChainIsReached(ctx: Context, m: nat)
    requires ctx.program == Chain(m)
    ensures Positive(ctx.program) && Validated(ctx.program)
    ensures (Stage(ctx, iset{}, 64) == LeastModel(ctx, iset{})) <==> m <= 64
  {
    hide Validated, Positive, Fires, Closed;
    ChainIsValid(m);
    if m <= 64 {
      ChainRests(ctx, m, 64);
      SettledIsLeastModel(ctx, iset{}, 64);
    } else {
      LastLink(ctx, m);
    }
  }

  lemma ChainRests(ctx: Context, m: nat, n: nat)
    requires ctx.program == Chain(m) && m <= n
    ensures Closed(ctx, Stage(ctx, iset{}, n))
  {
    hide Fires, Stage;
    var stage := Stage(ctx, iset{}, n);
    forall c | c in stage
      ensures c.when.Untimed?
    {
      ChainStage(ctx, m, n, c);
    }
    forall a | Consequence(ctx, stage, a)
      ensures a in stage
    {
      var k: nat, b: Bindings :| Fires(ctx, stage, k, b, a);
      LinkNeeds(ctx, m, stage, k, b, a);
      ChainStage(ctx, m, n, a);
    }
  }

  /** The link after the 64th is in the least model and is not stored when the run stops with success. */
  lemma LastLink(ctx: Context, m: nat)
    requires ctx.program == Chain(m) && m > 64
    ensures Link(64) in LeastModel(ctx, iset{}) && Link(64) !in Stage(ctx, iset{}, 64)
  {
    hide Stage, Positive, LeastModel, Limit;
    ChainIsValid(m);
    ChainStage(ctx, m, 64, Link(64));
    ChainStage(ctx, m, 65, Link(64));
    LeastModelIsModel(ctx, iset{});
    StageInModel(ctx, iset{}, 65, LeastModel(ctx, iset{}));
  }
}
