/** The append-only derivation log (src/engine/trace.c) and what makes one of its nodes justified. */
module TraceLog {
  import opened Syntax
  import opened Unify
  import opened Delegation
  import opened Semantics

  datatype Kind = FactStep | RuleStep | CapabilityStep | DelegationStep

  datatype Node = Node(id: nat, kind: Kind, ruleId: nat, fact: Atom, premises: seq<nat>, evidence: Option<string>)

  class Trace {
    var nodes: seq<Node>

    constructor ()
      ensures nodes == []
    {
      nodes := [];
    }

    /** etb_trace_append: the new node's id is its position. */
    method Append(kind: Kind, ruleId: nat, fact: Atom, premises: seq<nat>, evidence: Option<string>) returns (id: nat)
      modifies this
      ensures id == |old(nodes)| && nodes == old(nodes) + [Node(id, kind, ruleId, fact, premises, evidence)]
    {
      id := |nodes|;
      nodes := nodes + [Node(id, kind, ruleId, fact, premises, evidence)];
    }
  }

  /** The facts a log asserts; replies of adapters are recorded but not asserted. */
  ghost function Asserted(log: seq<Node>): iset<Atom> {
    iset n | n in log && n.kind != CapabilityStep :: n.fact
  }

  /** Premise `id` accounts for a positive literal reached with bindings `b` and holding under `m`. */
  ghost predicate PremiseFits(ctx: Context, log: seq<Node>, lit: Literal, b: Bindings, m: Bindings, id: nat) {
    id < |log| &&
    if IsCapability(ctx.program, lit) then
      && log[id].kind == CapabilityStep
      && log[id].fact == Predicate(lit.atom.pred, Inst(lit.atom.terms, m), Untimed)
      && Answered(ctx.oracle, lit.atom, b, Inst(lit.atom.terms, m))
    else
      log[id].kind != CapabilityStep && SupportedBy(ctx.now, Asserted(log), lit.atom, log[id].fact, m)
  }

  /** One premise for each positive literal among the first `n`, in order. */
  ghost predicate PremisesFit(ctx: Context, log: seq<Node>, body: seq<Literal>, n: nat, b: Bindings, ids: seq<nat>)
    requires n <= |body|
  {
    if n == 0 then ids == []
    else if body[n - 1].negated then PremisesFit(ctx, log, body, n - 1, b, ids)
    else
      && ids != []
      && PremiseFits(ctx, log, body[n - 1], Restrict(b, BoundBy(body, n - 1)), b, ids[|ids| - 1])
      && PremisesFit(ctx, log, body, n - 1, b, ids[..|ids| - 1])
  }

  /** One substitution matches the positive literals to the premises' facts and gives the head. */
  ghost predicate RuleFits(ctx: Context, log: seq<Node>, c: Statement, b: Bindings, ids: seq<nat>, fact: Atom)
    requires c.Clause?
  {
    && b.Keys == BoundBy(c.body, |c.body|) && GroundBindings(b)
    && PremisesFit(ctx, log, c.body, |c.body|, b, ids)
    && fact == InstAtom(c.head, b)
  }

  function KindOf(c: Statement): Kind
    requires c.Clause?
  {
    if c.head.SpeaksFor? then DelegationStep else if c.body == [] then FactStep else RuleStep
  }

  ghost predicate AdapterStep(ctx: Context, n: Node) {
    && n.kind == CapabilityStep && n.premises == [] && n.fact.Predicate?
    && exists a, b :: Replied(ctx, n, a, b)
  }

  ghost predicate Replied(ctx: Context, n: Node, a: Atom, b: Bindings)
    requires n.fact.Predicate?
  {
    a.Predicate? && a.pred == n.fact.pred && Answered(ctx.oracle, a, b, n.fact.terms)
  }

  ghost predicate ImportStep(imports: iset<Atom>, n: Node) {
    n.kind == FactStep && n.premises == [] && n.fact in imports
  }

  ghost predicate RuleStepOf(ctx: Context, log: seq<Node>, n: Node) {
    && n.ruleId < |ctx.program| && ctx.program[n.ruleId].Clause? && n.kind == KindOf(ctx.program[n.ruleId])
    && exists b :: RuleFits(ctx, log, ctx.program[n.ruleId], b, n.premises, n.fact)
  }

  ghost predicate Justified(ctx: Context, imports: iset<Atom>, log: seq<Node>, n: Node) {
    n.id == |log| && (AdapterStep(ctx, n) || ImportStep(imports, n) || RuleStepOf(ctx, log, n))
  }

  /** Every node is justified by the nodes before it. */
  ghost predicate Replays(ctx: Context, imports: iset<Atom>, log: seq<Node>) {
    forall k :: 0 <= k < |log| ==> Justified(ctx, imports, log[..k], log[k])
  }

  lemma ReplaysAppend(ctx: Context, imports: iset<Atom>, log: seq<Node>, n: Node)
    requires Replays(ctx, imports, log) && Justified(ctx, imports, log, n)
    ensures Replays(ctx, imports, log + [n])
  {
    var longer := log + [n];
    forall k | 0 <= k < |longer|
      ensures Justified(ctx, imports, longer[..k], longer[k])
    {
      assert longer[..k] == log[..k];
      assert log[..|log|] == log;
    }
  }

  lemma ReplaysMoreImports(ctx: Context, imports: iset<Atom>, more: iset<Atom>, log: seq<Node>)
    requires Replays(ctx, imports, log) && imports <= more
    ensures Replays(ctx, more, log)
  {
    forall k | 0 <= k < |log|
      ensures Justified(ctx, more, log[..k], log[k])
    {
      assert Justified(ctx, imports, log[..k], log[k]);
    }
  }

  lemma AssertedGrows(log: seq<Node>, longer: seq<Node>)
    requires log <= longer
    ensures Asserted(log) <= Asserted(longer)
  {
    forall n | n in log
      ensures n in longer
    {
      var i :| 0 <= i < |log| && log[i] == n;
      assert longer[i] == n;
    }
  }

  lemma PremiseFitsGrows(ctx: Context, log: seq<Node>, longer: seq<Node>, lit: Literal, b: Bindings, m: Bindings,
                         m': Bindings, id: nat)
    requires log <= longer && PremiseFits(ctx, log, lit, b, m, id)
    requires Inst(lit.atom.Args(), m') == Inst(lit.atom.Args(), m)
    ensures PremiseFits(ctx, longer, lit, b, m', id)
  {
    if !IsCapability(ctx.program, lit) {
      AssertedGrows(log, longer);
      SupportsMonotone(ctx.now, Asserted(log), Asserted(longer), lit.atom, log[id].fact);
    }
  }

  /** Premises stay good as the log grows and the bindings are extended. */
  lemma {:induction false} PremisesFitGrow(ctx: Context, log: seq<Node>, longer: seq<Node>, body: seq<Literal>, n: nat,
                                           b: Bindings, m: Bindings, ids: seq<nat>)
    requires n <= |body| && log <= longer && Extends(b, m) && BoundBy(body, n) <= b.Keys
    requires PremisesFit(ctx, log, body, n, b, ids)
    ensures PremisesFit(ctx, longer, body, n, m, ids)
  {
    hide PremiseFits, SupportedBy, Answered;
    if n > 0 {
      BoundByGrows(body, n - 1, n);
      if body[n - 1].negated {
        PremisesFitGrow(ctx, log, longer, body, n - 1, b, m, ids);
      } else {
        PremisesFitGrow(ctx, log, longer, body, n - 1, b, m, ids[..|ids| - 1]);
        RestrictTwice(b, m, BoundBy(body, n - 1));
        InstExtends(body[n - 1].atom.Args(), b, m);
        PremiseFitsGrows(ctx, log, longer, body[n - 1], Restrict(b, BoundBy(body, n - 1)), b, m, ids[|ids| - 1]);
      }
    }
  }

  lemma {:induction false} PremisesEarlier(ctx: Context, log: seq<Node>, body: seq<Literal>, n: nat, b: Bindings,
                                           ids: seq<nat>)
    requires n <= |body| && PremisesFit(ctx, log, body, n, b, ids)
    ensures forall i :: 0 <= i < |ids| ==> ids[i] < |log|
  {
    if n > 0 {
      if body[n - 1].negated {
        PremisesEarlier(ctx, log, body, n - 1, b, ids);
      } else {
        PremisesEarlier(ctx, log, body, n - 1, b, ids[..|ids| - 1]);
        forall i | 0 <= i < |ids|
          ensures ids[i] < |log|
        {
          if i < |ids| - 1 {
            assert ids[..|ids| - 1][i] == ids[i];
          }
        }
      }
    }
  }

  /** In a log that replays, ids are positions and premises come before the nodes that use them. */
  lemma IdsArePositions(ctx: Context, imports: iset<Atom>, log: seq<Node>, k: nat)
    requires Replays(ctx, imports, log) && k < |log|
    ensures log[k].id == k
    ensures forall i :: 0 <= i < |log[k].premises| ==> log[k].premises[i] < k
  {
    var n := log[k];
    assert Justified(ctx, imports, log[..k], n);
    if RuleStepOf(ctx, log[..k], n) {
      var c := ctx.program[n.ruleId];
      var b :| RuleFits(ctx, log[..k], c, b, n.premises, n.fact);
      PremisesEarlier(ctx, log[..k], c.body, |c.body|, b, n.premises);
    }
  }

  /** The clause that a node names has a body. */
  predicate NamesRule(program: seq<Statement>, n: Node) {
    n.ruleId < |program| && program[n.ruleId].Clause? && program[n.ruleId].body != []
  }

  /** The clause that a node names has none and states the node's fact. */
  predicate NamesFact(program: seq<Statement>, n: Node) {
    && n.ruleId < |program| && program[n.ruleId].Clause? && program[n.ruleId].body == []
    && n.fact == InstAtom(program[n.ruleId].head, map[])
  }

  /** What the kind of a node in a log that replays says about its premises, its fact and its clause. */
  lemma KindsTell(ctx: Context, imports: iset<Atom>, log: seq<Node>, k: nat)
    requires Replays(ctx, imports, log) && k < |log|
    ensures var n := log[k];
      match n.kind
      case FactStep => n.premises == [] && (n.fact in imports || (NamesFact(ctx.program, n) && !n.fact.SpeaksFor?))
      case RuleStep => NamesRule(ctx.program, n) && !n.fact.SpeaksFor?
      case CapabilityStep => n.premises == [] && n.fact.Predicate?
      case DelegationStep => n.fact.SpeaksFor? && (NamesRule(ctx.program, n) || NamesFact(ctx.program, n))
    ensures log[k].premises != [] ==> log[k].kind == if log[k].fact.SpeaksFor? then DelegationStep else RuleStep
  {
    hide Answered;
    var n := log[k];
    assert Justified(ctx, imports, log[..k], n);
    if RuleStepOf(ctx, log[..k], n) {
      var c := ctx.program[n.ruleId];
      var b :| RuleFits(ctx, log[..k], c, b, n.premises, n.fact);
      assert c.body == [] ==> b == map[] && n.premises == [];
    }
  }

  lemma {:induction false} PremisesSatisfy(ctx: Context, log: seq<Node>, facts: iset<Atom>, body: seq<Literal>, n: nat,
                                           b: Bindings, ids: seq<nat>)
    requires n <= |body| && PositiveBody(body)
    requires Asserted(log) <= facts && PremisesFit(ctx, log, body, n, b, ids)
    ensures forall j :: 0 <= j < n ==> LiteralHolds(ctx, facts, body, j, b)
  {
    hide Holds, PremiseFits;
    if n > 0 {
      PremiseSatisfies(ctx, log, facts, body[n - 1], Restrict(b, BoundBy(body, n - 1)), b, ids[|ids| - 1]);
      forall j | 0 <= j < n
        ensures LiteralHolds(ctx, facts, body, j, b)
      {
        if j < n - 1 {
          PremisesSatisfy(ctx, log, facts, body, n - 1, b, ids[..|ids| - 1]);
        }
      }
    }
  }

  lemma PremiseSatisfies(ctx: Context, log: seq<Node>, facts: iset<Atom>, lit: Literal, b: Bindings, m: Bindings,
                         id: nat)
    requires !lit.negated && Asserted(log) <= facts && PremiseFits(ctx, log, lit, b, m, id)
    ensures Holds(ctx, facts, lit, b, m)
  {
    if !IsCapability(ctx.program, lit) {
      SupportsMonotone(ctx.now, Asserted(log), facts, lit.atom, log[id].fact);
      assert SupportedBy(ctx.now, facts, lit.atom, log[id].fact, m);
    }
  }

  /**
   * A log that replays is a proof: for a negation-free program each fact it asserts is in every
   * model of the program over the imported facts.
   */
  lemma {:induction false} ReplaySound(ctx: Context, imports: iset<Atom>, log: seq<Node>)
    requires Positive(ctx.program) && Replays(ctx, imports, log)
    ensures Asserted(log) <= LeastModel(ctx, imports)
  {
    hide LeastModel, RuleStepOf, AdapterStep, ImportStep;
    if log != [] {
      var k := |log| - 1;
      var before := log[..k];
      forall j | 0 <= j < |before|
        ensures Justified(ctx, imports, before[..j], before[j])
      {
        assert before[..j] == log[..j];
      }
      ReplaySound(ctx, imports, before);
      assert Justified(ctx, imports, log[..k], log[k]);
      if log[k].kind != CapabilityStep {
        NodeInModel(ctx, imports, before, log[k]);
      }
      assert log == before + [log[k]];
    }
  }

  /** A justified node over asserted facts of the least model asserts one itself. */
  lemma NodeInModel(ctx: Context, imports: iset<Atom>, log: seq<Node>, n: Node)
    requires Positive(ctx.program) && Asserted(log) <= LeastModel(ctx, imports)
    requires Justified(ctx, imports, log, n) && n.kind != CapabilityStep
    ensures n.fact in LeastModel(ctx, imports)
  {
    hide LeastModel, PremisesFit;
    LeastModelIsModel(ctx, imports);
    if RuleStepOf(ctx, log, n) {
      var c := ctx.program[n.ruleId];
      var b :| RuleFits(ctx, log, c, b, n.premises, n.fact);
      PremisesSatisfy(ctx, log, LeastModel(ctx, imports), c.body, |c.body|, b, n.premises);
      assert Fires(ctx, LeastModel(ctx, imports), n.ruleId, b, n.fact);
    }
  }
}
