/** The evaluation engine (src/engine/eval.c). */
module EngineCore {
  import opened Syntax
  import opened Unify
  import opened Tables
  import opened Delegation
  import opened Semantics
  import opened TraceLog
  import Strata

  datatype EvalState = EvalState(bindings: Bindings, premises: seq<nat>)

  /** Adapters answer with ground tuples. */
  ghost predicate GroundOracle(oracle: Oracle) {
    forall name, args, mask :: GroundReply(oracle(name, args, mask))
  }

  ghost predicate GroundReply(reply: Option<Reply>) {
    reply.Some? ==> forall tuple :: tuple in reply.value.tuples ==> GroundTerms(tuple)
  }

  ghost predicate PlainHeads(program: seq<Statement>) {
    forall i :: 0 <= i < |program| && program[i].Clause? ==> PlainName(program[i].head)
  }

  /** A fact whose trace id names an asserting node with that same atom. */
  ghost predicate Traced(log: seq<Node>, f: Fact) {
    f.traceId < |log| && log[f.traceId].fact == f.atom && log[f.traceId].kind != CapabilityStep
  }

  ghost predicate AllTraced(log: seq<Node>, rs: seq<Relation>) {
    forall f :: Stores(rs, f) ==> Traced(log, f)
  }

  /** A state reached from `st` by matching one literal. */
  ghost predicate Follows(ctx: Context, facts: iset<Atom>, log: seq<Node>, lit: Literal, st: EvalState, s: EvalState) {
    && Matched(st.bindings, lit, s.bindings) && Holds(ctx, facts, lit, st.bindings, s.bindings)
    && if lit.negated then s.premises == st.premises
       else
         && |s.premises| == |st.premises| + 1 && s.premises[..|st.premises|] == st.premises
         && PremiseFits(ctx, log, lit, st.bindings, s.bindings, s.premises[|st.premises|])
  }

  ghost predicate Matched(b: Bindings, lit: Literal, m: Bindings) {
    Extends(b, m) && m.Keys == b.Keys + Binds(lit) && GroundBindings(m)
  }

  ghost predicate Covers(states: seq<EvalState>, m: Bindings) {
    exists k :: 0 <= k < |states| && states[k].bindings == m
  }

  /** Every way of matching the literal is among the states. */
  ghost predicate Complete(ctx: Context, facts: iset<Atom>, lit: Literal, b: Bindings, states: seq<EvalState>) {
    forall m :: Matched(b, lit, m) && Holds(ctx, facts, lit, b, m) ==> Covers(states, m)
  }

  /** A clause, with the state reached after its first `n` literals. */
  ghost predicate Underway(ctx: Context, facts: iset<Atom>, log: seq<Node>, body: seq<Literal>, n: nat, st: EvalState) {
    && n <= |body| && PartialSolution(ctx, facts, body, n, st.bindings)
    && PremisesFit(ctx, log, body, n, st.bindings, st.premises)
  }

  ghost predicate Instance(ctx: Context, facts: iset<Atom>, i: nat, a: Atom) {
    exists b :: Fires(ctx, facts, i, b, a)
  }

  ghost predicate Listed(facts: seq<Fact>, a: Atom) {
    exists k :: 0 <= k < |facts| && facts[k].atom == a
  }

  lemma UnderwayNext(ctx: Context, facts: iset<Atom>, log: seq<Node>, longer: seq<Node>, body: seq<Literal>, n: nat,
                     st: EvalState, s: EvalState)
    requires n < |body| && NegationsAllowed(ctx.program, body) && log <= longer
    requires Underway(ctx, facts, log, body, n, st) && Follows(ctx, facts, longer, body[n], st, s)
    ensures Underway(ctx, facts, longer, body, n + 1, s)
  {
    PartialSolutionSnoc(ctx, facts, body, n, st.bindings, s.bindings);
    PremisesFitGrow(ctx, log, longer, body, n, st.bindings, s.bindings, st.premises);
    assert Restrict(s.bindings, BoundBy(body, n)) == st.bindings;
    if !body[n].negated {
      assert s.premises[..|s.premises| - 1] == st.premises;
    }
  }

  lemma FollowsGrows(ctx: Context, facts: iset<Atom>, log: seq<Node>, longer: seq<Node>, lit: Literal, st: EvalState,
                     s: EvalState)
    requires log <= longer && Follows(ctx, facts, log, lit, st, s)
    ensures Follows(ctx, facts, longer, lit, st, s)
  {
    if !lit.negated {
      PremiseFitsGrows(ctx, log, longer, lit, st.bindings, s.bindings, s.bindings, s.premises[|st.premises|]);
    }
  }

  /** A stored fact that matches is a premise that fits. */
  lemma StoredPremise(ctx: Context, rs: seq<Relation>, log: seq<Node>, lit: Literal, st: EvalState, f: Fact,
                      m: Bindings)
    requires AllTraced(log, rs) && Stores(rs, f) && f.atom.Ground()
    requires !lit.negated && !IsCapability(ctx.program, lit) && GroundBindings(st.bindings)
    requires Supports(ctx.now, Flat(rs), lit.atom, f.atom)
    requires UnifyTerms(st.bindings, lit.atom.Args(), f.atom.Args()) == Some(m)
    ensures Follows(ctx, Flat(rs), log, lit, st, EvalState(m, st.premises + [f.traceId]))
  {
    UnifyTermsExact(st.bindings, lit.atom.Args(), f.atom.Args());
    assert SupportedBy(ctx.now, Flat(rs), lit.atom, f.atom, m);
    StoredAsserted(log, rs);
    SupportsMonotone(ctx.now, Flat(rs), Asserted(log), lit.atom, f.atom);
    assert (st.premises + [f.traceId])[..|st.premises|] == st.premises;
  }

  lemma StoredAsserted(log: seq<Node>, rs: seq<Relation>)
    requires AllTraced(log, rs)
    ensures Flat(rs) <= Asserted(log)
  {
    forall f | Stores(rs, f)
      ensures f.atom in Asserted(log)
    {
      assert Traced(log, f);
      assert log[f.traceId] in log;
    }
  }

  /** A match of the literal comes from a stored fact that unifies. */
  lemma MatchFromFact(ctx: Context, rs: seq<Relation>, lit: Literal, b: Bindings, m: Bindings) returns (f: Fact)
    requires !lit.negated && !IsCapability(ctx.program, lit)
    requires forall g :: Stores(rs, g) ==> g.atom.Ground()
    requires Matched(b, lit, m) && Holds(ctx, Flat(rs), lit, b, m)
    ensures Stores(rs, f) && Supports(ctx.now, Flat(rs), lit.atom, f.atom)
    ensures UnifyTerms(b, lit.atom.Args(), f.atom.Args()) == Some(m)
  {
    var a :| SupportedBy(ctx.now, Flat(rs), lit.atom, a, m);
    f :| Stores(rs, f) && f.atom == a;
    UnifyTermsIs(b, lit.atom.Args(), a.Args(), m);
  }

  lemma TracedGrows(log: seq<Node>, longer: seq<Node>, rs: seq<Relation>)
    requires log <= longer && AllTraced(log, rs)
    ensures AllTraced(longer, rs)
  {
    forall f | Stores(rs, f)
      ensures Traced(longer, f)
    {
      assert Traced(log, f);
    }
  }

  /** An adapter's tuple that unifies is recorded by a justified node and becomes a premise. */
  lemma AdapterAppends(ctx: Context, imports: iset<Atom>, log: seq<Node>, lit: Literal, st: EvalState,
                       tuple: seq<Term>, m: Bindings, evidence: Option<string>)
    requires Replays(ctx, imports, log) && IsCapability(ctx.program, lit) && !lit.negated
    requires GroundTerms(tuple) && GroundBindings(st.bindings)
    requires Answered(ctx.oracle, lit.atom, st.bindings, tuple)
    requires UnifyTerms(st.bindings, lit.atom.terms, tuple) == Some(m)
    ensures var n := Node(|log|, CapabilityStep, 0, Predicate(lit.atom.pred, tuple, Untimed), [], evidence);
      && Replays(ctx, imports, log + [n])
      && forall facts :: Follows(ctx, facts, log + [n], lit, st, EvalState(m, st.premises + [|log|]))
  {
    var n := Node(|log|, CapabilityStep, 0, Predicate(lit.atom.pred, tuple, Untimed), [], evidence);
    assert Replied(ctx, n, lit.atom, st.bindings);
    assert AdapterStep(ctx, n);
    ReplaysAppend(ctx, imports, log, n);
    UnifyTermsExact(st.bindings, lit.atom.terms, tuple);
    assert Inst(lit.atom.terms, m) == tuple;
    assert (st.premises + [|log|])[..|st.premises|] == st.premises;
    assert PremiseFits(ctx, log + [n], lit, st.bindings, m, |log|);
  }

  /** Unification of the same shape is only tried within one relation key. */
  lemma ShapeKey(p: Atom, c: Atom)
    requires SameShape(p, c, false)
    ensures RelationKey(p) == RelationKey(c)
  {
  }

  ghost predicate KeyAt(relations: RelationSet, at: nat, key: string)
    reads relations
  {
    && at <= |relations.items|
    && (at < |relations.items| ==> relations.items[at].key == key)
    && (at == |relations.items| ==> forall i :: 0 <= i < |relations.items| ==> relations.items[i].key != key)
  }

  lemma ShapeKeyed(relations: RelationSet, at: nat, pattern: Atom)
    requires relations.Valid() && KeyAt(relations, at, RelationKey(pattern)) && !pattern.Says?
    ensures forall f :: Stores(relations.items, f) && SameShape(pattern, f.atom, true) ==>
      at < |relations.items| && f in relations.items[at].facts
  {
    forall f | Stores(relations.items, f) && SameShape(pattern, f.atom, true)
      ensures at < |relations.items| && f in relations.items[at].facts
    {
      ShapeKey(pattern, f.atom);
      relations.KeyedIsFlat(RelationKey(pattern), at, f);
    }
  }

  ghost predicate Rejects(now: nat, pattern: Atom, b: Bindings, a: Atom) {
    Usable(now, pattern, a) && UnifyAtoms(b, pattern, a, false).Some?
  }

  ghost predicate AnyRejects(now: nat, pattern: Atom, b: Bindings, facts: seq<Fact>) {
    exists k :: 0 <= k < |facts| && Rejects(now, pattern, b, facts[k].atom)
  }

  /** The relation under the literal's key is the only place a defeating fact can be. */
  lemma DefeatKeyed(relations: RelationSet, at: nat, pattern: Atom, b: Bindings, now: nat)
    requires relations.Valid() && KeyAt(relations, at, RelationKey(pattern))
    ensures (exists a :: Defeats(now, relations.Db(), pattern, b, a)) ==>
      at < |relations.items| && AnyRejects(now, pattern, b, relations.items[at].facts)
  {
    if a :| Defeats(now, relations.Db(), pattern, b, a) {
      var f :| Stores(relations.items, f) && f.atom == a;
      ShapeKey(pattern, a);
      relations.KeyedIsFlat(RelationKey(pattern), at, f);
      var k :| 0 <= k < |relations.items[at].facts| && relations.items[at].facts[k] == f;
      assert Rejects(now, pattern, b, relations.items[at].facts[k].atom);
    }
  }

  lemma DefeatStored(relations: RelationSet, at: nat, pattern: Atom, b: Bindings, now: nat)
    requires at < |relations.items| && AnyRejects(now, pattern, b, relations.items[at].facts)
    ensures exists a :: Defeats(now, relations.Db(), pattern, b, a)
  {
    var k :| 0 <= k < |relations.items[at].facts| && Rejects(now, pattern, b, relations.items[at].facts[k].atom);
    var f := relations.items[at].facts[k];
    assert Contains(relations.items[at], f);
    assert Stores(relations.items, f);
    assert Defeats(now, relations.Db(), pattern, b, f.atom);
  }

  class Engine {
    const program: seq<Statement>
    const now: nat
    const oracle: Oracle
    const capabilities: seq<Statement>
    const relations: RelationSet
    const trace: Trace
    /** Every atom handed to ImportAnswers so far. */
    ghost var imports: iset<Atom>

    ghost function Ctx(): Context {
      Context(program, now, oracle)
    }

    ghost function Db(): iset<Atom>
      reads relations
    {
      relations.Db()
    }

    ghost predicate Valid()
      reads this, relations, trace
    {
      && relations.Valid() && GroundOracle(oracle) && PlainHeads(program)
      && (forall c :: c in capabilities <==> c in program && c.Capability?)
      && AllTraced(trace.nodes, relations.items)
      && Replays(Ctx(), imports, trace.nodes)
    }

    /** etb_engine_init followed by etb_engine_load_program */
    constructor (program: seq<Statement>, now: nat, oracle: Oracle)
      requires GroundOracle(oracle) && PlainHeads(program)
      ensures Valid() && fresh(relations) && fresh(trace)
      ensures this.program == program && this.now == now && this.oracle == oracle
      ensures Db() == iset{} && trace.nodes == [] && imports == iset{}
    {
      var declared := [];
      var i := 0;
      while i < |program|
        invariant 0 <= i <= |program|
        invariant forall c :: c in declared <==> c in program[..i] && c.Capability?
      {
        if program[i].Capability? {
          declared := declared + [program[i]];
        }
        i := i + 1;
      }
      assert program[..i] == program;
      this.program, this.now, this.oracle := program, now, oracle;
      capabilities := declared;
      relations := new RelationSet();
      trace := new Trace();
      imports := iset{};
    }

    /** etb_literal_is_capability, through etb_capability_registry_find */
    method FindCapability(lit: Literal) returns (yes: bool)
      requires Valid()
      ensures yes <==> IsCapability(program, lit)
    {
      if !lit.atom.Predicate? {
        return false;
      }
      yes := Capability(lit.atom.pred, |lit.atom.terms|) in capabilities;
    }

    /** One tuple of a reply: a log node and a new state when it unifies (source lines 166-199). */
    method TryTuple(lit: Literal, st: EvalState, tuple: seq<Term>, evidence: Option<string>)
      returns (s: Option<EvalState>)
      requires Valid() && IsCapability(program, lit) && !lit.negated && GroundBindings(st.bindings)
      requires GroundTerms(tuple) && Answered(oracle, lit.atom, st.bindings, tuple)
      modifies trace
      ensures Valid() && old(trace.nodes) <= trace.nodes
      ensures s.Some? <==> UnifyTerms(st.bindings, lit.atom.terms, tuple).Some?
      ensures s.Some? ==> UnifyTerms(st.bindings, lit.atom.terms, tuple) == Some(s.value.bindings)
      ensures s.Some? ==> Follows(Ctx(), Db(), trace.nodes, lit, st, s.value)
      ensures s.Some? ==> s.value.premises == st.premises + [|old(trace.nodes)|]
      ensures trace.nodes == if s.None? then old(trace.nodes)
                             else old(trace.nodes) + [CallNode(|old(trace.nodes)|, lit.atom.pred, tuple, evidence)]
    {
      var candidate := Predicate(lit.atom.pred, tuple, Untimed);
      var unified, m := UnifyAtom(st.bindings, lit.atom, candidate, false);
      if !unified {
        return None;
      }
      ghost var before := trace.nodes;
      var id := trace.Append(CapabilityStep, 0, candidate, [], evidence);
      AdapterAppends(Ctx(), imports, before, lit, st, tuple, m, evidence);
      TracedGrows(before, trace.nodes, relations.items);
      s := Some(EvalState(m, st.premises + [id]));
    }

    /** What goes to the adapter (source lines 125-148): known arguments by value, the others as null. */
    method HandOver(ts: seq<Term>, b: Bindings) returns (args: seq<Term>, mask: seq<bool>)
      requires GroundBindings(b)
      ensures |args| == |mask| == |ts|
      ensures forall i :: 0 <= i < |ts| ==> (mask[i] <==> !Inst(ts, b)[i].Variable?)
      ensures forall i :: 0 <= i < |ts| ==> args[i] == if mask[i] then Inst(ts, b)[i] else Null
      ensures args == CallArgs(ts, b) && mask == CallMask(ts, b)
    {
      args, mask := [], [];
      var i := 0;
      while i < |ts|
        invariant 0 <= i <= |ts| && |args| == |mask| == i
        invariant forall k :: 0 <= k < i ==> args[k] == CallArgs(ts, b)[k] && mask[k] == CallMask(ts, b)[k]
      {
        var t := ts[i];
        var bound := t.Variable? && t.name in b;
        args := args + [if bound then b[t.name] else if t.Variable? then Null else t];
        mask := mask + [bound || !t.Variable?];
        i := i + 1;
      }
      forall k | 0 <= k < |ts|
        ensures mask[k] <==> !Inst(ts, b)[k].Variable?
        ensures args[k] == if mask[k] then Inst(ts, b)[k] else Null
      {
        CallHandsOver(ts, b, k);
      }
    }

    /** etb_try_capability: one new state and one log node for each tuple that unifies, in order. */
    method TryCapability(lit: Literal, st: EvalState) returns (ok: bool, states: seq<EvalState>)
      requires Valid() && IsCapability(program, lit) && !lit.negated && GroundBindings(st.bindings)
      modifies trace
      ensures Valid() && old(trace.nodes) <= trace.nodes
      ensures AllFollow(Ctx(), Db(), trace.nodes, lit, st, states)
      ensures ok ==> Complete(Ctx(), Db(), lit, st.bindings, states)
      ensures ok <==> !CallFails(Ctx(), lit, st.bindings)
      ensures ok ==> var reply := CallReply(Ctx(), lit, st.bindings);
        CallLogged(lit, st, reply, |reply.tuples|, old(trace.nodes), trace.nodes, states)
    {
      hide PlainHeads, AllTraced, Replays, Follows, UnifyTerms, CallArgs, CallMask, Covers, Complete, CallLogged;
      states := [];
      var args, mask := HandOver(lit.atom.terms, st.bindings);
      var reply := oracle(lit.atom.pred, args, mask);
      if reply.None? {
        return false, states;
      }
      assert GroundReply(reply);
      var tuples := reply.value.tuples;
      var i := 0;
      NothingLogged(lit, st, reply.value, trace.nodes);
      while i < |tuples|
        invariant 0 <= i <= |tuples|
        invariant Valid() && old(trace.nodes) <= trace.nodes
        invariant AllFollow(Ctx(), Db(), trace.nodes, lit, st, states)
        invariant CallLogged(lit, st, reply.value, i, old(trace.nodes), trace.nodes, states)
        invariant TuplesCovered(st.bindings, lit.atom.terms, tuples[..i], states)
      {
        ghost var before := trace.nodes;
        var evidence := if i < |reply.value.evidence| then Some(reply.value.evidence[i]) else None;
        assert tuples[i] in tuples;
        var s := TryTuple(lit, st, tuples[i], evidence);
        assert tuples[..i + 1] == tuples[..i] + [tuples[i]];
        AllFollowGrows(Ctx(), Db(), before, trace.nodes, lit, st, states);
        TuplesCoveredMore(st.bindings, lit.atom.terms, tuples[..i], tuples[i], states, s);
        CallLoggedMore(lit, st, reply.value, i, old(trace.nodes), before, trace.nodes, states, s);
        if s.Some? {
          states := states + [s.value];
        }
        i := i + 1;
      }
      ok := true;
      assert tuples[..i] == tuples;
      TuplesComplete(Ctx(), Db(), lit, st.bindings, tuples, states);
    }

    /** The negated branch (source lines 222-264): the state survives unless a stored fact matches. */
    method MatchNegated(lit: Literal, st: EvalState) returns (states: seq<EvalState>)
      requires Valid() && lit.negated && NegationAllowed(program, lit) && GroundBindings(st.bindings)
      ensures AllFollow(Ctx(), Db(), trace.nodes, lit, st, states)
      ensures Complete(Ctx(), Db(), lit, st.bindings, states)
    {
      states := [];
      var at := relations.Find(RelationKey(lit.atom));
      if at < |relations.items| {
        var defeated := AnyDefeats(relations.items[at].facts, lit, st.bindings);
        if defeated {
          DefeatStored(relations, at, lit.atom, st.bindings, now);
          return;
        }
      }
      DefeatKeyed(relations, at, lit.atom, st.bindings, now);
      states := [st];
      assert [st][0].bindings == st.bindings;
      forall m | Matched(st.bindings, lit, m)
        ensures Covers(states, m)
      {
        assert m == st.bindings;
      }
    }

    method AnyDefeats(facts: seq<Fact>, lit: Literal, b: Bindings) returns (yes: bool)
      ensures yes <==> AnyRejects(now, lit.atom, b, facts)
    {
      var i := 0;
      while i < |facts|
        invariant 0 <= i <= |facts|
        invariant forall k :: 0 <= k < i ==> !Rejects(now, lit.atom, b, facts[k].atom)
      {
        var a := facts[i].atom;
        if ValidNow(now, a) && TemporalMatches(lit.atom, a) {
          var unified, _ := UnifyAtom(b, lit.atom, a, false);
          if unified {
            assert Rejects(now, lit.atom, b, facts[i].atom);
            return true;
          }
        }
        i := i + 1;
      }
      yes := false;
    }

    /** One stored fact tried against a positive literal. */
    method TryFact(lit: Literal, st: EvalState, f: Fact) returns (s: Option<EvalState>)
      requires Valid() && Stores(relations.items, f) && !lit.negated && !IsCapability(program, lit)
      requires GroundBindings(st.bindings) && Supports(now, Db(), lit.atom, f.atom)
      ensures s.Some? ==> Follows(Ctx(), Db(), trace.nodes, lit, st, s.value)
      ensures s.Some? <==> UnifyTerms(st.bindings, lit.atom.Args(), f.atom.Args()).Some?
      ensures s.Some? ==> UnifyTerms(st.bindings, lit.atom.Args(), f.atom.Args()) == Some(s.value.bindings)
    {
      var unified, m := UnifyAtom(st.bindings, lit.atom, f.atom, true);
      if !unified {
        return None;
      }
      assert f.atom.Ground();
      StoredPremise(Ctx(), relations.items, trace.nodes, lit, st, f, m);
      s := Some(EvalState(m, st.premises + [f.traceId]));
    }

    /** The scan of one relation for a plain positive literal (source lines 311-343). */
    method MatchStored(lit: Literal, st: EvalState) returns (states: seq<EvalState>)
      requires Valid() && !lit.negated && !IsCapability(program, lit) && !lit.atom.Says?
      requires GroundBindings(st.bindings)
      ensures AllFollow(Ctx(), Db(), trace.nodes, lit, st, states)
      ensures Complete(Ctx(), Db(), lit, st.bindings, states)
    {
      states := [];
      var at := relations.Find(RelationKey(lit.atom));
      ghost var scanned: seq<Fact> := [];
      if at < |relations.items| {
        scanned := relations.items[at].facts;
        states := MatchStoredIn(at, lit, st);
      }
      ShapeKeyed(relations, at, lit.atom);
      ConsideredComplete(Ctx(), relations.items, lit, st.bindings, scanned, states);
    }

    method MatchStoredIn(r: nat, lit: Literal, st: EvalState) returns (states: seq<EvalState>)
      requires Valid() && !lit.negated && !IsCapability(program, lit) && !lit.atom.Says?
      requires GroundBindings(st.bindings) && r < |relations.items|
      ensures AllFollow(Ctx(), Db(), trace.nodes, lit, st, states)
      ensures Considered(Ctx(), Db(), lit, st.bindings, relations.items[r].facts, states)
    {
      hide GroundOracle, PlainHeads, AllTraced, Replays, Follows, FactCovered;
      states := [];
      var facts := relations.items[r].facts;
      var i := 0;
      while i < |facts|
        invariant 0 <= i <= |facts|
        invariant AllFollow(Ctx(), Db(), trace.nodes, lit, st, states)
        invariant Considered(Ctx(), Db(), lit, st.bindings, facts[..i], states)
      {
        assert Contains(relations.items[r], facts[i]);
        assert Stores(relations.items, facts[i]);
        var s := TryPlain(lit, st, facts[i]);
        assert facts[..i + 1] == facts[..i] + [facts[i]];
        ConsideredMore(Ctx(), Db(), lit, st.bindings, facts[..i], facts[i], states, s);
        if s.Some? {
          states := states + [s.value];
        }
        i := i + 1;
      }
      assert facts[..i] == facts;
    }

    method TryPlain(lit: Literal, st: EvalState, f: Fact) returns (s: Option<EvalState>)
      requires Valid() && Stores(relations.items, f)
      requires !lit.negated && !IsCapability(program, lit) && !lit.atom.Says? && GroundBindings(st.bindings)
      ensures s.Some? ==> Follows(Ctx(), Db(), trace.nodes, lit, st, s.value)
      ensures s.Some? <==>
        Supports(now, Db(), lit.atom, f.atom) && UnifyTerms(st.bindings, lit.atom.Args(), f.atom.Args()).Some?
      ensures s.Some? ==> UnifyTerms(st.bindings, lit.atom.Args(), f.atom.Args()) == Some(s.value.bindings)
    {
      if !ValidNow(now, f.atom) || !TemporalMatches(lit.atom, f.atom) || !SameShape(lit.atom, f.atom, true) {
        return None;
      }
      s := TryFact(lit, st, f);
    }

    /** The scan over every says relation, delegation included (source lines 266-309). */
    method MatchSays(lit: Literal, st: EvalState) returns (states: seq<EvalState>)
      requires Valid() && !lit.negated && lit.atom.Says? && GroundBindings(st.bindings)
      ensures AllFollow(Ctx(), Db(), trace.nodes, lit, st, states)
      ensures Complete(Ctx(), Db(), lit, st.bindings, states)
    {
      hide GroundOracle, PlainHeads, AllTraced, Replays, Follows, FactCovered;
      states := [];
      ghost var seen: seq<Fact> := [];
      var r := 0;
      while r < |relations.items|
        invariant 0 <= r <= |relations.items|
        invariant AllFollow(Ctx(), Db(), trace.nodes, lit, st, states)
        invariant Considered(Ctx(), Db(), lit, st.bindings, seen, states)
        invariant forall k, f :: 0 <= k < r && Contains(relations.items[k], f) && f.atom.Says? ==> f in seen
      {
        if SAYS_PREFIX <= relations.items[r].key {
          states := MatchSaysIn(r, lit, st, states, seen);
          seen := seen + relations.items[r].facts;
        } else {
          forall f | Contains(relations.items[r], f)
            ensures !f.atom.Says?
          {
            PlainKey(f.atom);
          }
        }
        r := r + 1;
      }
      ConsideredComplete(Ctx(), relations.items, lit, st.bindings, seen, states);
    }

    method MatchSaysIn(r: nat, lit: Literal, st: EvalState, states: seq<EvalState>, ghost seen: seq<Fact>)
      returns (out: seq<EvalState>)
      requires Valid() && !lit.negated && lit.atom.Says? && GroundBindings(st.bindings)
      requires r < |relations.items| && SAYS_PREFIX <= relations.items[r].key
      requires AllFollow(Ctx(), Db(), trace.nodes, lit, st, states)
      requires Considered(Ctx(), Db(), lit, st.bindings, seen, states)
      ensures AllFollow(Ctx(), Db(), trace.nodes, lit, st, out)
      ensures Considered(Ctx(), Db(), lit, st.bindings, seen + relations.items[r].facts, out)
    {
      hide GroundOracle, PlainHeads, AllTraced, Replays, Follows, FactCovered, Supports, UnifyTerms, RelationKey,
        Considered;
      out := states;
      var facts := relations.items[r].facts;
      var i := 0;
      assert seen + facts[..0] == seen;
      while i < |facts|
        invariant 0 <= i <= |facts|
        invariant AllFollow(Ctx(), Db(), trace.nodes, lit, st, out)
        invariant Considered(Ctx(), Db(), lit, st.bindings, seen + facts[..i], out)
      {
        assert Contains(relations.items[r], facts[i]);
        assert Stores(relations.items, facts[i]);
        PlainKey(facts[i].atom);
        var s := TrySays(lit, st, facts[i]);
        assert seen + facts[..i + 1] == seen + facts[..i] + [facts[i]];
        ConsideredMore(Ctx(), Db(), lit, st.bindings, seen + facts[..i], facts[i], out, s);
        if s.Some? {
          out := out + [s.value];
        }
        i := i + 1;
      }
      assert facts[..i] == facts;
    }

    /** One says fact: in force, about the same predicate, and said by the principal or a delegate of it. */
    method TrySays(lit: Literal, st: EvalState, f: Fact) returns (s: Option<EvalState>)
      requires Valid() && Stores(relations.items, f) && f.atom.Says?
      requires !lit.negated && lit.atom.Says? && GroundBindings(st.bindings)
      ensures s.Some? ==> Follows(Ctx(), Db(), trace.nodes, lit, st, s.value)
      ensures s.Some? <==>
        Supports(now, Db(), lit.atom, f.atom) && UnifyTerms(st.bindings, lit.atom.Args(), f.atom.Args()).Some?
      ensures s.Some? ==> UnifyTerms(st.bindings, lit.atom.Args(), f.atom.Args()) == Some(s.value.bindings)
    {
      var a := f.atom;
      if !ValidNow(now, a) || !TemporalMatches(lit.atom, a) {
        return None;
      }
      if a.pred != lit.atom.pred || |a.terms| != |lit.atom.terms| {
        return None;
      }
      if a.principal != lit.atom.principal {
        var allowed := Check(relations, a.principal, lit.atom.principal, a.pred, now);
        if !allowed {
          return None;
        }
      } else {
        ReachesUnfold(Db(), a.principal, lit.atom.principal, a.pred, now, 0, DEFAULT_BOUND);
      }
      s := TryFact(lit, st, f);
    }

    /** etb_match_literal */
    method MatchLiteral(lit: Literal, st: EvalState) returns (ok: bool, states: seq<EvalState>)
      requires Valid() && NegationAllowed(program, lit) && GroundBindings(st.bindings)
      modifies trace
      ensures Valid() && old(trace.nodes) <= trace.nodes
      ensures AllFollow(Ctx(), Db(), trace.nodes, lit, st, states)
      ensures ok ==> Complete(Ctx(), Db(), lit, st.bindings, states)
      ensures ok <==> !CallFails(Ctx(), lit, st.bindings)
    {
      ok := true;
      var capability := FindCapability(lit);
      if capability {
        ok, states := TryCapability(lit, st);
      } else if lit.negated {
        states := MatchNegated(lit, st);
      } else if lit.atom.Says? {
        states := MatchSays(lit, st);
      } else {
        states := MatchStored(lit, st);
      }
    }

    /** The end of a clause body (source lines 350-398): a new head instance is logged and listed. */
    method DeriveHead(c: nat, st: EvalState, derived: seq<Fact>) returns (out: seq<Fact>)
      requires Valid() && c < |program| && program[c].Clause? && ClauseValid(program, program[c])
      requires Underway(Ctx(), Db(), trace.nodes, program[c].body, |program[c].body|, st)
      modifies trace
      ensures Valid() && old(trace.nodes) <= trace.nodes && derived <= out
      ensures NewFacts(Ctx(), Db(), trace.nodes, c, out[|derived|..])
      ensures var a := InstAtom(program[c].head, st.bindings); a in Db() || Listed(out, a)
    {
      out := derived;
      var clause := program[c];
      var instantiated := InstAtom(clause.head, st.bindings);
      HeadGround(Ctx(), Db(), clause, st.bindings);
      if !instantiated.Ground() {
        assert false;
      }
      var known := relations.ContainsFact(instantiated);
      if known {
        return;
      }
      ghost var before := trace.nodes;
      var id := trace.Append(KindOf(clause), c, instantiated, st.premises, None);
      assert RuleFits(Ctx(), before, clause, st.bindings, st.premises, instantiated);
      ReplaysAppend(Ctx(), imports, before, trace.nodes[id]);
      TracedGrows(before, trace.nodes, relations.items);
      out := derived + [Fact(instantiated, id)];
      assert out[|derived|].atom == instantiated;
      assert Fires(Ctx(), Db(), c, st.bindings, instantiated);
    }

    /**
     * etb_evaluate_clause_body: from literal `i` on, exactly the head instances of the solutions
     * that extend the state and are not stored yet are appended, each justified in the log.
     */
    method EvaluateClauseBody(c: nat, i: nat, st: EvalState, derived: seq<Fact>) returns (ok: bool, out: seq<Fact>)
      requires Valid() && c < |program| && program[c].Clause? && ClauseValid(program, program[c])
      requires i <= |program[c].body| && Underway(Ctx(), Db(), trace.nodes, program[c].body, i, st)
      modifies trace
      ensures Valid() && old(trace.nodes) <= trace.nodes && derived <= out
      ensures NewFacts(Ctx(), Db(), trace.nodes, c, out[|derived|..])
      ensures ok ==> AllDerived(Ctx(), Db(), c, st.bindings, out)
      ensures ok <==> CallsAnswered(Ctx(), Db(), c, i, st.bindings)
      decreases |program[c].body| - i, 0
    {
      hide CallsAnswered, CallFails, GroundOracle, PlainHeads, AllTraced, Replays, AllDerived, Complete, Follows,
        Listed,
        PremisesFit, Traced, Instance, LiteralHolds;
      var body := program[c].body;
      if i == |body| {
        out := DeriveHead(c, st, derived);
        EndDerived(Ctx(), Db(), c, st.bindings, out);
        NoCallsLeft(Ctx(), Db(), c, st.bindings);
        return true, out;
      }
      out := derived;
      ghost var before := trace.nodes;
      var matched, states := MatchLiteral(body[i], st);
      if !matched {
        CallUnanswered(Ctx(), Db(), c, i, st.bindings, st.bindings);
        return false, out;
      }
      StatesAnswered(Ctx(), Db(), trace.nodes, c, i, st, states);
      StatesUnderway(Ctx(), Db(), before, trace.nodes, body, i, st, states);
      ok, out := EvaluateStates(c, i + 1, states, derived);
      if ok {
        StatesDerive(Ctx(), Db(), c, i, st.bindings, states, out);
      }
    }

    /** The recursion over the states that matched a literal (source lines 409-420). */
    method EvaluateStates(c: nat, i: nat, states: seq<EvalState>, derived: seq<Fact>) returns (ok: bool, out: seq<Fact>)
      requires Valid() && c < |program| && program[c].Clause? && ClauseValid(program, program[c])
      requires i <= |program[c].body| && AllUnderway(Ctx(), Db(), trace.nodes, program[c].body, i, states)
      modifies trace
      ensures Valid() && old(trace.nodes) <= trace.nodes && derived <= out
      ensures NewFacts(Ctx(), Db(), trace.nodes, c, out[|derived|..])
      ensures ok ==> forall k :: 0 <= k < |states| ==> AllDerived(Ctx(), Db(), c, states[k].bindings, out)
      ensures ok <==> forall k :: 0 <= k < |states| ==> CallsAnswered(Ctx(), Db(), c, i, states[k].bindings)
      decreases |program[c].body| - i, 1
    {
      hide GroundOracle, PlainHeads, AllTraced, Replays, AllDerived, Underway, Traced, Instance, CallsAnswered;
      out := derived;
      var k := 0;
      while k < |states|
        invariant 0 <= k <= |states|
        invariant Valid() && old(trace.nodes) <= trace.nodes && derived <= out
        invariant NewFacts(Ctx(), Db(), trace.nodes, c, out[|derived|..])
        invariant DerivedUpTo(Ctx(), Db(), c, states[..k], out)
        invariant forall j :: 0 <= j < k ==> CallsAnswered(Ctx(), Db(), c, i, states[j].bindings)
      {
        UnderwayGrows(Ctx(), Db(), old(trace.nodes), trace.nodes, program[c].body, i, states[k]);
        ghost var shorter, older := out, trace.nodes;
        ok, out := EvaluateClauseBody(c, i, states[k], out);
        NewFactsJoin(Ctx(), Db(), older, trace.nodes, c, derived, shorter, out);
        if !ok {
          return;
        }
        assert states[..k + 1] == states[..k] + [states[k]];
        DerivedOneMore(Ctx(), Db(), c, states[..k], states[k], shorter, out);
        k := k + 1;
      }
      ok := true;
      assert states[..k] == states;
    }

    /** One sweep over all clauses against the relations as they stand (source lines 442-456). */
    method DerivePass() returns (ok: bool, derived: seq<Fact>)
      requires Valid() && Validated(program)
      modifies trace
      ensures Valid() && old(trace.nodes) <= trace.nodes
      ensures PassFacts(Ctx(), Db(), trace.nodes, derived)
      ensures ok ==> forall a :: Consequence(Ctx(), Db(), a) ==> a in Db() || Listed(derived, a)
      ensures ok <==> !AdapterFails(Ctx(), Db())
    {
      hide CallFailsAt;
      derived := [];
      var c := 0;
      while c < |program|
        invariant 0 <= c <= |program|
        invariant Valid() && old(trace.nodes) <= trace.nodes
        invariant PassFacts(Ctx(), Db(), trace.nodes, derived)
        invariant ClausesDone(Ctx(), Db(), c, derived)
        invariant forall d: nat, j: nat, b :: d < c ==> !CallFailsAt(Ctx(), Db(), d, j, b)
      {
        ghost var before, shorter := trace.nodes, derived;
        CallsInClauses(Ctx(), Db());
        if program[c].Clause? {
          var initial := EvalState(map[], []);
          assert Underway(Ctx(), Db(), trace.nodes, program[c].body, 0, initial);
          ok, derived := EvaluateClauseBody(c, 0, initial, derived);
          PassFactsJoin(Ctx(), Db(), before, trace.nodes, c, shorter, derived);
          ClauseCalls(Ctx(), Db(), c);
          if !ok {
            return;
          }
        }
        ClauseDone(Ctx(), Db(), c, shorter, derived);
        c := c + 1;
      }
      ok := true;
      CallsInClauses(Ctx(), Db());
      forall a | Consequence(Ctx(), Db(), a)
        ensures a in Db() || Listed(derived, a)
      {
        var i: nat, b: Bindings :| Fires(Ctx(), Db(), i, b, a);
      }
    }

    /** The new facts are filed one by one (source lines 457-466). */
    method StorePass(derived: seq<Fact>) returns (changed: bool)
      requires Valid() && Validated(program) && PassFacts(Ctx(), Db(), trace.nodes, derived)
      modifies relations
      ensures Valid()
      ensures Db() == old(Db()) + Atoms(derived)
      ensures changed <==> derived != []
    {
      hide GroundOracle, PlainHeads, AllTraced, Replays, Atoms, Flat, Traced;
      changed := false;
      var i := 0;
      AtomsNone(derived);
      while i < |derived|
        invariant 0 <= i <= |derived|
        invariant Valid()
        invariant Db() == old(Db()) + Atoms(derived[..i])
        invariant changed <==> i > 0
      {
        AtomsSnoc(derived, i);
        PassFactFits(Ctx(), old(Db()), derived[i].atom);
        var known := relations.ContainsFact(derived[i].atom);
        if !known {
          StoreOne(derived[i]);
          changed := true;
        }
        UnionSnoc(old(Db()), Atoms(derived[..i]), derived[i].atom);
        i := i + 1;
      }
      assert derived[..i] == derived;
    }

    method StoreOne(f: Fact)
      requires Valid() && Traced(trace.nodes, f) && f.atom.Ground() && PlainName(f.atom)
      modifies relations
      ensures Valid() && Db() == old(Db()) + iset{f.atom}
    {
      relations.AddFact(f);
    }

    /**
     * etb_engine_run_fixpoint: a successful run leaves exactly the facts with a derivation of height
     * at most 64 over the facts it started from, whatever the program negates. It fails exactly when
     * the program is not valid or a pass calls an adapter that does not answer. `rested` tells whether
     * the last pass added nothing, and then no rule has anything left to add.
     */
    method RunFixpoint() returns (ok: bool, ghost rested: bool)
      requires Valid()
      modifies relations, trace
      ensures Valid() && old(trace.nodes) <= trace.nodes
      ensures ok <==> Validated(program) && CallsSucceed(Ctx(), old(Db()))
      ensures ok ==> Db() == Stage(Ctx(), old(Db()), 64)
      ensures ok ==> (rested <==> LastPassIdle(Ctx(), old(Db()))) && (rested ==> Closed(Ctx(), Db()))
      ensures AtSomeStage(Ctx(), old(Db()), Db())
      ensures !ok ==> if Validated(program) then AdapterFails(Ctx(), Db()) else Db() == old(Db())
    {
      hide GroundOracle, PlainHeads, AllTraced, Replays, Next, CallsSucceed, LastPassIdle, Closed, AdapterFails;
      rested := false;
      var valid, _, _, _ := Strata.Validate(program);
      if !valid {
        assert Db() == Stage(Ctx(), old(Db()), 0);
        return false, rested;
      }
      ok, rested := RunPasses();
    }

    /** The pass loop (source lines 438-468). */
    method RunPasses() returns (ok: bool, ghost rested: bool)
      requires Valid() && Validated(program)
      modifies relations, trace
      ensures Valid() && old(trace.nodes) <= trace.nodes
      ensures ok <==> CallsSucceed(Ctx(), old(Db()))
      ensures ok ==> Db() == Stage(Ctx(), old(Db()), 64)
      ensures ok ==> (rested <==> LastPassIdle(Ctx(), old(Db()))) && (rested ==> Closed(Ctx(), Db()))
      ensures AtSomeStage(Ctx(), old(Db()), Db())
      ensures !ok ==> AdapterFails(Ctx(), Db())
    {
      hide Next, Stage, GroundOracle, PlainHeads, AllTraced, Replays, AdapterFails, Closed;
      rested := false;
      ghost var start := Db();
      var changed := true;
      var passes := 0;
      StageStep(Ctx(), start, 0);
      while changed && passes < MAX_PASSES
        invariant 0 <= passes <= MAX_PASSES
        invariant Valid() && old(trace.nodes) <= trace.nodes
        invariant Db() == Stage(Ctx(), start, passes)
        invariant !changed ==> passes > 0
        invariant passes > 0 ==> (changed <==> Stage(Ctx(), start, passes) != Stage(Ctx(), start, passes - 1))
        invariant forall n :: 0 <= n < passes ==> !AdapterFails(Ctx(), Stage(Ctx(), start, n))
        decreases MAX_PASSES - passes
      {
        StageStep(Ctx(), start, passes);
        ok, changed := Pass();
        if !ok {
          return;
        }
        passes := passes + 1;
      }
      ok := true;
      rested := !changed;
      if rested {
        StoppedRun(Ctx(), start, passes);
      }
    }

    method Pass() returns (ok: bool, changed: bool)
      requires Valid() && Validated(program)
      modifies relations, trace
      ensures Valid() && old(trace.nodes) <= trace.nodes
      ensures ok ==> Db() == Next(Ctx(), old(Db())) && (changed <==> Db() != old(Db()))
      ensures ok <==> !AdapterFails(Ctx(), old(Db()))
      ensures !ok ==> Db() == old(Db())
    {
      hide AdapterFails;
      changed := false;
      var derived;
      ghost var before := Db();
      ok, derived := DerivePass();
      if ok {
        PassIsNext(Ctx(), before, trace.nodes, derived);
        changed := StorePass(derived);
        if changed {
          assert derived[0] in derived;
          assert derived[0].atom in Atoms(derived);
        }
      }
    }

    /** etb_engine_import_answers: stores the ground atoms up to the first one that is not ground. */
    method ImportAnswers(answers: seq<Atom>, evidence: string) returns (ok: bool)
      requires Valid() && forall i :: 0 <= i < |answers| ==> PlainName(answers[i])
      modifies this`imports, relations, trace
      ensures Valid() && old(trace.nodes) <= trace.nodes
      ensures ok <==> forall i :: 0 <= i < |answers| ==> answers[i].Ground()
      ensures ok ==> Db() == old(Db()) + Elements(answers) && imports == old(imports) + Elements(answers)
      ensures old(Db()) <= Db() <= old(Db()) + Elements(answers)
      ensures old(imports) <= imports <= old(imports) + Elements(answers)
      ensures ok ==> |trace.nodes| == |old(trace.nodes)| + |answers|
      ensures forall k :: |old(trace.nodes)| <= k < |trace.nodes| ==>
        k - |old(trace.nodes)| < |answers| && ImportNode(trace.nodes[k], k, answers[k - |old(trace.nodes)|], evidence)
    {
      hide GroundOracle, PlainHeads, AllTraced, Replays, Elements, Flat;
      var i := 0;
      ElementsNone(answers);
      while i < |answers|
        invariant 0 <= i <= |answers|
        invariant Valid() && old(trace.nodes) <= trace.nodes
        invariant forall k :: 0 <= k < i ==> answers[k].Ground()
        invariant Db() == old(Db()) + Elements(answers[..i])
        invariant imports == old(imports) + Elements(answers[..i])
        invariant |trace.nodes| == |old(trace.nodes)| + i
        invariant forall k :: |old(trace.nodes)| <= k < |trace.nodes| ==>
          ImportNode(trace.nodes[k], k, answers[k - |old(trace.nodes)|], evidence)
      {
        ElementsSnoc(answers, i);
        if !answers[i].Ground() {
          return false;
        }
        ImportOne(answers[i], evidence);
        UnionSnoc(old(Db()), Elements(answers[..i]), answers[i]);
        UnionSnoc(old(imports), Elements(answers[..i]), answers[i]);
        i := i + 1;
      }
      assert answers[..i] == answers;
      ok := true;
    }

    method ImportOne(a: Atom, evidence: string)
      requires Valid() && PlainName(a) && a.Ground()
      modifies this`imports, relations, trace
      ensures Valid() && old(trace.nodes) <= trace.nodes
      ensures Db() == old(Db()) + iset{a} && imports == old(imports) + iset{a}
      ensures |trace.nodes| == |old(trace.nodes)| + 1
      ensures ImportNode(trace.nodes[|old(trace.nodes)|], |old(trace.nodes)|, a, evidence)
    {
      ghost var before := trace.nodes;
      ReplaysMoreImports(Ctx(), imports, imports + iset{a}, before);
      imports := imports + iset{a};
      var id := trace.Append(FactStep, 0, a, [], Some(evidence));
      assert ImportStep(imports, trace.nodes[id]);
      ReplaysAppend(Ctx(), imports, before, trace.nodes[id]);
      TracedGrows(before, trace.nodes, relations.items);
      relations.AddFact(Fact(a, id));
    }

    /** etb_engine_query: exactly the instances of the goal that hold, with the goal's own annotations. */
    method Query(goal: Atom) returns (ok: bool, answers: seq<Fact>)
      requires Valid()
      modifies trace
      ensures Valid() && old(trace.nodes) <= trace.nodes
      ensures ok ==> forall a :: Listed(answers, a) <==> Answer(Ctx(), Db(), goal, a)
      ensures ok ==> forall k :: 0 <= k < |answers| ==> Backed(Ctx(), Db(), trace.nodes, goal, answers[k])
      ensures ok <==> !CallFails(Ctx(), Literal(false, goal), map[])
    {
      hide GroundOracle, PlainHeads, AllTraced, Replays, AllFollow, Complete, Answer, Backed, CallFails;
      answers := [];
      var states;
      ok, states := MatchLiteral(Literal(false, goal), EvalState(map[], []));
      if ok {
        answers := Collect(goal, states);
        AnswersExact(Ctx(), Db(), trace.nodes, goal, states, answers);
      }
    }

    /** The instances of the goal, each with the id of its last premise (source lines 489-511). */
    method Collect(goal: Atom, states: seq<EvalState>) returns (answers: seq<Fact>)
      requires AllFollow(Ctx(), Db(), trace.nodes, Literal(false, goal), EvalState(map[], []), states)
      ensures |answers| == |states|
      ensures forall k :: 0 <= k < |states| ==> answers[k].atom == InstAtom(goal, states[k].bindings)
      ensures forall k :: 0 <= k < |states| ==> Backed(Ctx(), Db(), trace.nodes, goal, answers[k])
    {
      hide Follows, Backed;
      answers := [];
      var k := 0;
      while k < |states|
        invariant 0 <= k <= |states| && |answers| == k
        invariant forall j :: 0 <= j < k ==> answers[j].atom == InstAtom(goal, states[j].bindings)
        invariant forall j :: 0 <= j < k ==> Backed(Ctx(), Db(), trace.nodes, goal, answers[j])
      {
        BackedBy(Ctx(), Db(), trace.nodes, goal, states[k]);
        var premises := states[k].premises;
        var id := if premises == [] then 0 else premises[|premises| - 1];
        answers := answers + [Fact(InstAtom(goal, states[k].bindings), id)];
        k := k + 1;
      }
    }
  }

  const MAX_PASSES: nat := 64

  /** An imported answer is logged as a fact without premises, its certificate's root being the evidence. */
  predicate ImportNode(n: Node, id: nat, a: Atom, root: string) {
    n == Node(id, FactStep, 0, a, [], Some(root))
  }

  /** Instances of the goal under the bindings it can be matched with. */
  ghost predicate Answer(ctx: Context, facts: iset<Atom>, goal: Atom, a: Atom) {
    exists m :: AnswerBy(ctx, facts, goal, m, a)
  }

  ghost predicate AnswerBy(ctx: Context, facts: iset<Atom>, goal: Atom, m: Bindings, a: Atom) {
    && m.Keys == Vars(goal.Args()) && GroundBindings(m)
    && Holds(ctx, facts, Literal(false, goal), map[], m) && a == InstAtom(goal, m)
  }

  /** The answer's trace id names the log node it was matched with. */
  ghost predicate Backed(ctx: Context, facts: iset<Atom>, log: seq<Node>, goal: Atom, f: Fact) {
    exists m ::
      AnswerBy(ctx, facts, goal, m, f.atom) && PremiseFits(ctx, log, Literal(false, goal), map[], m, f.traceId)
  }

  lemma BackedBy(ctx: Context, facts: iset<Atom>, log: seq<Node>, goal: Atom, s: EvalState)
    requires Follows(ctx, facts, log, Literal(false, goal), EvalState(map[], []), s)
    ensures |s.premises| == 1 && Backed(ctx, facts, log, goal, Fact(InstAtom(goal, s.bindings), s.premises[0]))
  {
    hide Holds, PremiseFits;
    assert AnswerBy(ctx, facts, goal, s.bindings, InstAtom(goal, s.bindings));
  }

  lemma AnswersExact(ctx: Context, facts: iset<Atom>, log: seq<Node>, goal: Atom, states: seq<EvalState>,
                     answers: seq<Fact>)
    requires AllFollow(ctx, facts, log, Literal(false, goal), EvalState(map[], []), states)
    requires Complete(ctx, facts, Literal(false, goal), map[], states)
    requires |answers| == |states|
    requires forall j :: 0 <= j < |states| ==> answers[j].atom == InstAtom(goal, states[j].bindings)
    ensures forall a :: Listed(answers, a) <==> Answer(ctx, facts, goal, a)
  {
    hide Holds, PremiseFits;
    forall a
      ensures Listed(answers, a) <==> Answer(ctx, facts, goal, a)
    {
      if Listed(answers, a) {
        var k :| 0 <= k < |answers| && answers[k].atom == a;
        assert Follows(ctx, facts, log, Literal(false, goal), EvalState(map[], []), states[k]);
        assert AnswerBy(ctx, facts, goal, states[k].bindings, a);
      }
      if Answer(ctx, facts, goal, a) {
        var m :| AnswerBy(ctx, facts, goal, m, a);
        assert Matched(map[], Literal(false, goal), m);
        assert Covers(states, m);
        var k :| 0 <= k < |states| && states[k].bindings == m;
        assert answers[k].atom == a;
      }
    }
  }

  ghost function Atoms(fs: seq<Fact>): iset<Atom> {
    iset f | f in fs :: f.atom
  }

  lemma AtomsNone(fs: seq<Fact>)
    ensures Atoms(fs[..0]) == iset{}
  {
  }

  lemma AtomsSnoc(fs: seq<Fact>, i: nat)
    requires i < |fs|
    ensures fs[i] in fs && Atoms(fs[..i + 1]) == Atoms(fs[..i]) + iset{fs[i].atom}
  {
    assert fs[..i + 1] == fs[..i] + [fs[i]];
  }

  ghost function Elements(atoms: seq<Atom>): iset<Atom> {
    iset a | a in atoms
  }

  lemma ElementsNone(atoms: seq<Atom>)
    ensures Elements(atoms[..0]) == iset{}
  {
  }

  lemma ElementsSnoc(atoms: seq<Atom>, i: nat)
    requires i < |atoms|
    ensures Elements(atoms[..i + 1]) == Elements(atoms[..i]) + iset{atoms[i]}
    ensures Elements(atoms[..i]) <= Elements(atoms)
  {
    assert atoms[..i + 1] == atoms[..i] + [atoms[i]];
    assert atoms == atoms[..i] + atoms[i..];
  }

  lemma UnionSnoc(a: iset<Atom>, b: iset<Atom>, x: Atom)
    ensures a + b + iset{x} == a + (b + iset{x})
  {
  }

  ghost predicate AtSomeStage(ctx: Context, start: iset<Atom>, facts: iset<Atom>) {
    exists n: nat :: n <= 64 && facts == Stage(ctx, start, n)
  }

  lemma StageStep(ctx: Context, start: iset<Atom>, n: nat)
    ensures Stage(ctx, start, 0) == start
    ensures Next(ctx, Stage(ctx, start, n)) == Stage(ctx, start, n + 1)
  {
  }

  /** No pass of a run meets an adapter that does not answer. */
  ghost predicate CallsSucceed(ctx: Context, start: iset<Atom>) {
    forall n :: 0 <= n < 64 ==> !AdapterFails(ctx, Stage(ctx, start, n))
  }

  ghost predicate LastPassIdle(ctx: Context, start: iset<Atom>) {
    Stage(ctx, start, 63) == Stage(ctx, start, 64)
  }

  /** A run that stops because a pass added nothing is at rest, and so would all further passes be. */
  lemma StoppedRun(ctx: Context, start: iset<Atom>, n: nat)
    requires 0 < n <= 64 && Stage(ctx, start, n - 1) == Stage(ctx, start, n)
    requires forall k :: 0 <= k < n ==> !AdapterFails(ctx, Stage(ctx, start, k))
    ensures Stage(ctx, start, 64) == Stage(ctx, start, n) && LastPassIdle(ctx, start)
    ensures Closed(ctx, Stage(ctx, start, 64)) && CallsSucceed(ctx, start)
  {
    hide Closed, AdapterFails, Next;
    StageSettles(ctx, start, n - 1, 64);
    StageSettles(ctx, start, n - 1, 63);
    StageStep(ctx, start, n - 1);
    ClosedIsSettled(ctx, Stage(ctx, start, n));
    forall k | 0 <= k < 64
      ensures !AdapterFails(ctx, Stage(ctx, start, k))
    {
      if k >= n {
        StageSettles(ctx, start, n - 1, k);
      }
    }
  }

  /** What a sweep lists: facts not stored before, derivable in one step, and logged. */
  ghost predicate PassFacts(ctx: Context, facts: iset<Atom>, log: seq<Node>, fs: seq<Fact>) {
    forall f :: f in fs ==> Traced(log, f) && f.atom !in facts && Consequence(ctx, facts, f.atom)
  }

  lemma PassFactsJoin(ctx: Context, facts: iset<Atom>, log: seq<Node>, longer: seq<Node>, c: nat, fs: seq<Fact>,
                      out: seq<Fact>)
    requires log <= longer && fs <= out
    requires PassFacts(ctx, facts, log, fs) && NewFacts(ctx, facts, longer, c, out[|fs|..])
    ensures PassFacts(ctx, facts, longer, out)
  {
    assert out == fs + out[|fs|..];
    forall f | f in out
      ensures Traced(longer, f) && f.atom !in facts && Consequence(ctx, facts, f.atom)
    {
      if f in fs {
        assert Traced(log, f);
      } else {
        assert f in out[|fs|..];
        var b: Bindings :| Fires(ctx, facts, c, b, f.atom);
      }
    }
  }

  /** The heads of all solutions of the first `n` clauses are stored or listed. */
  ghost predicate ClausesDone(ctx: Context, facts: iset<Atom>, n: nat, out: seq<Fact>) {
    forall c: nat, b, a :: c < n && Fires(ctx, facts, c, b, a) ==> a in facts || Listed(out, a)
  }

  lemma ClauseDone(ctx: Context, facts: iset<Atom>, n: nat, fs: seq<Fact>, out: seq<Fact>)
    requires n < |ctx.program| && fs <= out && ClausesDone(ctx, facts, n, fs)
    requires ctx.program[n].Clause? ==> AllDerived(ctx, facts, n, map[], out)
    ensures ClausesDone(ctx, facts, n + 1, out)
  {
    forall c: nat, b, a | c < n + 1 && Fires(ctx, facts, c, b, a)
      ensures a in facts || Listed(out, a)
    {
      if c < n {
        if a !in facts {
          ListedGrows(fs, out, a);
        }
      } else {
        assert Extends(map[], b);
      }
    }
  }

  lemma PassFactFits(ctx: Context, facts: iset<Atom>, a: Atom)
    requires Validated(ctx.program) && PlainHeads(ctx.program) && Consequence(ctx, facts, a)
    ensures a.Ground() && PlainName(a)
  {
    var i: nat, b: Bindings :| Fires(ctx, facts, i, b, a);
    HeadGround(ctx, facts, ctx.program[i], b);
  }

  lemma PassIsNext(ctx: Context, facts: iset<Atom>, log: seq<Node>, derived: seq<Fact>)
    requires PassFacts(ctx, facts, log, derived)
    requires forall a :: Consequence(ctx, facts, a) ==> a in facts || Listed(derived, a)
    ensures Next(ctx, facts) == facts + Atoms(derived)
    ensures derived == [] ==> Next(ctx, facts) == facts
  {
    var listed := Atoms(derived);
    forall a
      ensures a in Next(ctx, facts) <==> a in facts || a in listed
    {
      if Listed(derived, a) {
        var k :| 0 <= k < |derived| && derived[k].atom == a;
        assert derived[k] in derived;
      }
    }
  }

  ghost predicate AllUnderway(ctx: Context, facts: iset<Atom>, log: seq<Node>, body: seq<Literal>, n: nat,
                              states: seq<EvalState>) {
    forall k :: 0 <= k < |states| ==> Underway(ctx, facts, log, body, n, states[k])
  }

  lemma UnderwayGrows(ctx: Context, facts: iset<Atom>, log: seq<Node>, longer: seq<Node>, body: seq<Literal>, n: nat,
                      st: EvalState)
    requires log <= longer && Underway(ctx, facts, log, body, n, st)
    ensures Underway(ctx, facts, longer, body, n, st)
  {
    PremisesFitGrow(ctx, log, longer, body, n, st.bindings, st.bindings, st.premises);
  }

  lemma StatesUnderway(ctx: Context, facts: iset<Atom>, log: seq<Node>, longer: seq<Node>, body: seq<Literal>, n: nat,
                       st: EvalState, states: seq<EvalState>)
    requires n < |body| && NegationsAllowed(ctx.program, body) && log <= longer
    requires Underway(ctx, facts, log, body, n, st) && AllFollow(ctx, facts, longer, body[n], st, states)
    ensures AllUnderway(ctx, facts, longer, body, n + 1, states)
  {
    forall k | 0 <= k < |states|
      ensures Underway(ctx, facts, longer, body, n + 1, states[k])
    {
      UnderwayNext(ctx, facts, log, longer, body, n, st, states[k]);
    }
  }

  ghost predicate DerivedUpTo(ctx: Context, facts: iset<Atom>, c: nat, states: seq<EvalState>, out: seq<Fact>) {
    forall j :: 0 <= j < |states| ==> AllDerived(ctx, facts, c, states[j].bindings, out)
  }

  lemma DerivedOneMore(ctx: Context, facts: iset<Atom>, c: nat, states: seq<EvalState>, s: EvalState,
                       out: seq<Fact>, longer: seq<Fact>)
    requires out <= longer && DerivedUpTo(ctx, facts, c, states, out)
    requires AllDerived(ctx, facts, c, s.bindings, longer)
    ensures DerivedUpTo(ctx, facts, c, states + [s], longer)
  {
    forall j | 0 <= j < |states|
      ensures AllDerived(ctx, facts, c, states[j].bindings, longer)
    {
      AllDerivedGrows(ctx, facts, c, states[j].bindings, out, longer);
    }
  }

  /** Listed facts that clause `c` derives anew, each with a log node of its own. */
  ghost predicate NewFacts(ctx: Context, facts: iset<Atom>, log: seq<Node>, c: nat, fs: seq<Fact>) {
    forall f :: f in fs ==> Traced(log, f) && f.atom !in facts && Instance(ctx, facts, c, f.atom)
  }

  /** Every solution of clause `c` that extends `b` has its head stored or listed. */
  ghost predicate AllDerived(ctx: Context, facts: iset<Atom>, c: nat, b: Bindings, out: seq<Fact>) {
    forall s, a :: Fires(ctx, facts, c, s, a) && Extends(b, s) ==> a in facts || Listed(out, a)
  }

  lemma EndDerived(ctx: Context, facts: iset<Atom>, c: nat, b: Bindings, out: seq<Fact>)
    requires c < |ctx.program| && ctx.program[c].Clause?
    requires b.Keys == BoundBy(ctx.program[c].body, |ctx.program[c].body|)
    requires var a := InstAtom(ctx.program[c].head, b); a in facts || Listed(out, a)
    ensures AllDerived(ctx, facts, c, b, out)
  {
    forall s, a | Fires(ctx, facts, c, s, a) && Extends(b, s)
      ensures a in facts || Listed(out, a)
    {
      assert s == b;
    }
  }

  lemma ListedGrows(fs: seq<Fact>, longer: seq<Fact>, a: Atom)
    requires fs <= longer && Listed(fs, a)
    ensures Listed(longer, a)
  {
    var k :| 0 <= k < |fs| && fs[k].atom == a;
    assert longer[k].atom == a;
  }

  lemma AllDerivedGrows(ctx: Context, facts: iset<Atom>, c: nat, b: Bindings, out: seq<Fact>, longer: seq<Fact>)
    requires out <= longer && AllDerived(ctx, facts, c, b, out)
    ensures AllDerived(ctx, facts, c, b, longer)
  {
    forall s, a | Fires(ctx, facts, c, s, a) && Extends(b, s)
      ensures a in facts || Listed(longer, a)
    {
      if a !in facts {
        ListedGrows(out, longer, a);
      }
    }
  }

  lemma NewFactsJoin(ctx: Context, facts: iset<Atom>, log: seq<Node>, longer: seq<Node>, c: nat, first: seq<Fact>,
                     mid: seq<Fact>, last: seq<Fact>)
    requires log <= longer && first <= mid <= last
    requires NewFacts(ctx, facts, log, c, mid[|first|..]) && NewFacts(ctx, facts, longer, c, last[|mid|..])
    ensures NewFacts(ctx, facts, longer, c, last[|first|..])
  {
    assert last[|first|..] == mid[|first|..] + last[|mid|..];
    forall f | f in last[|first|..]
      ensures Traced(longer, f) && f.atom !in facts && Instance(ctx, facts, c, f.atom)
    {
      if f in mid[|first|..] {
        assert Traced(log, f);
      }
    }
  }

  /** Each solution goes through one of the states that match the next literal. */
  lemma StatesDerive(ctx: Context, facts: iset<Atom>, c: nat, i: nat, b: Bindings, states: seq<EvalState>,
                     out: seq<Fact>)
    requires c < |ctx.program| && ctx.program[c].Clause? && ClauseValid(ctx.program, ctx.program[c])
    requires i < |ctx.program[c].body| && b.Keys == BoundBy(ctx.program[c].body, i)
    requires Complete(ctx, facts, ctx.program[c].body[i], b, states)
    requires forall j :: 0 <= j < |states| ==> AllDerived(ctx, facts, c, states[j].bindings, out)
    ensures AllDerived(ctx, facts, c, b, out)
  {
    var body := ctx.program[c].body;
    forall s, a | Fires(ctx, facts, c, s, a) && Extends(b, s)
      ensures a in facts || Listed(out, a)
    {
      var m := SolutionPrefix(ctx, facts, body, i, |body|, s);
      assert Restrict(s, BoundBy(body, i)) == b;
      assert Matched(b, body[i], m);
      assert Covers(states, m);
      var k :| 0 <= k < |states| && states[k].bindings == m;
      assert AllDerived(ctx, facts, c, states[k].bindings, out);
    }
  }

  /** Each listed fact that supports the literal and unifies has its state. */
  ghost predicate Considered(ctx: Context, facts: iset<Atom>, lit: Literal, b: Bindings, fs: seq<Fact>,
                             states: seq<EvalState>) {
    forall f :: f in fs ==> FactCovered(ctx, facts, lit, b, f, states)
  }

  ghost predicate FactCovered(ctx: Context, facts: iset<Atom>, lit: Literal, b: Bindings, f: Fact,
                              states: seq<EvalState>) {
    Supports(ctx.now, facts, lit.atom, f.atom) && UnifyTerms(b, lit.atom.Args(), f.atom.Args()).Some? ==>
      Covers(states, UnifyTerms(b, lit.atom.Args(), f.atom.Args()).value)
  }

  lemma ConsideredMore(ctx: Context, facts: iset<Atom>, lit: Literal, b: Bindings, fs: seq<Fact>, f: Fact,
                       states: seq<EvalState>, s: Option<EvalState>)
    requires Considered(ctx, facts, lit, b, fs, states)
    requires s.Some? ==> UnifyTerms(b, lit.atom.Args(), f.atom.Args()) == Some(s.value.bindings)
    requires s.None? ==> FactCovered(ctx, facts, lit, b, f, states)
    ensures Considered(ctx, facts, lit, b, fs + [f], if s.Some? then states + [s.value] else states)
  {
    if s.Some? {
      CoversMore(states, s.value);
    }
    var longer := if s.Some? then states + [s.value] else states;
    forall g | g in fs + [f]
      ensures FactCovered(ctx, facts, lit, b, g, longer)
    {
      if g in fs {
        assert FactCovered(ctx, facts, lit, b, g, states);
      }
    }
  }

  lemma ConsideredComplete(ctx: Context, rs: seq<Relation>, lit: Literal, b: Bindings, fs: seq<Fact>,
                           states: seq<EvalState>)
    requires !lit.negated && !IsCapability(ctx.program, lit)
    requires forall f :: Stores(rs, f) ==> f.atom.Ground()
    requires forall f :: Stores(rs, f) && SameShape(lit.atom, f.atom, true) ==> f in fs
    requires Considered(ctx, Flat(rs), lit, b, fs, states)
    ensures Complete(ctx, Flat(rs), lit, b, states)
  {
    forall m | Matched(b, lit, m) && Holds(ctx, Flat(rs), lit, b, m)
      ensures Covers(states, m)
    {
      var f := MatchFromFact(ctx, rs, lit, b, m);
      assert FactCovered(ctx, Flat(rs), lit, b, f, states);
    }
  }

  // ---------- Adapter calls ----------

  function CallNode(id: nat, name: string, tuple: seq<Term>, evidence: Option<string>): Node {
    Node(id, CapabilityStep, 0, Predicate(name, tuple, Untimed), [], evidence)
  }

  function EvidenceFor(reply: Reply, i: nat): Option<string> {
    if i < |reply.evidence| then Some(reply.evidence[i]) else None
  }

  /** The reply to the call that the literal makes under these bindings. */
  function CallReply(ctx: Context, lit: Literal, b: Bindings): Reply
    requires IsCapability(ctx.program, lit)
    requires ctx.oracle(lit.atom.pred, CallArgs(lit.atom.terms, b), CallMask(lit.atom.terms, b)).Some?
  {
    ctx.oracle(lit.atom.pred, CallArgs(lit.atom.terms, b), CallMask(lit.atom.terms, b)).value
  }

  /** The positions of the first `n` tuples that unify. */
  function Hits(b: Bindings, ts: seq<Term>, tuples: seq<seq<Term>>, n: nat): seq<nat>
    requires n <= |tuples|
  {
    if n == 0 then []
    else Hits(b, ts, tuples, n - 1) + (if UnifyTerms(b, ts, tuples[n - 1]).Some? then [n - 1] else [])
  }

  /** The state and the log node made from tuple `i`. */
  ghost predicate HitLogged(lit: Literal, st: EvalState, reply: Reply, i: nat, id: nat, n: Node, s: EvalState)
    requires lit.atom.Predicate?
  {
    && i < |reply.tuples| && n == CallNode(id, lit.atom.pred, reply.tuples[i], EvidenceFor(reply, i))
    && UnifyTerms(st.bindings, lit.atom.terms, reply.tuples[i]) == Some(s.bindings) && s.premises == st.premises + [id]
  }

  /** Exactly one state and one node, in order, for each of the first `n` tuples that unifies. */
  ghost predicate CallLogged(lit: Literal, st: EvalState, reply: Reply, n: nat, before: seq<Node>, after: seq<Node>,
                             states: seq<EvalState>)
    requires lit.atom.Predicate? && n <= |reply.tuples|
  {
    var hits := Hits(st.bindings, lit.atom.terms, reply.tuples, n);
    && before <= after && |after| == |before| + |hits| && |states| == |hits|
    && forall k :: 0 <= k < |hits| ==>
         HitLogged(lit, st, reply, hits[k], |before| + k, after[|before| + k], states[k])
  }

  lemma HitIsLogged(lit: Literal, st: EvalState, reply: Reply, i: nat, id: nat, s: EvalState)
    requires lit.atom.Predicate? && i < |reply.tuples| && s.premises == st.premises + [id]
    requires UnifyTerms(st.bindings, lit.atom.terms, reply.tuples[i]) == Some(s.bindings)
    ensures HitLogged(lit, st, reply, i, id, CallNode(id, lit.atom.pred, reply.tuples[i], EvidenceFor(reply, i)), s)
  {
  }

  lemma NothingLogged(lit: Literal, st: EvalState, reply: Reply, log: seq<Node>)
    requires lit.atom.Predicate?
    ensures CallLogged(lit, st, reply, 0, log, log, [])
  {
  }

  lemma CallLoggedMore(lit: Literal, st: EvalState, reply: Reply, i: nat, before: seq<Node>, mid: seq<Node>,
                       after: seq<Node>, states: seq<EvalState>, s: Option<EvalState>)
    requires lit.atom.Predicate? && i < |reply.tuples| && CallLogged(lit, st, reply, i, before, mid, states)
    requires s.Some? <==> UnifyTerms(st.bindings, lit.atom.terms, reply.tuples[i]).Some?
    requires s.Some? ==> s.value.premises == st.premises + [|mid|]
    requires s.Some? ==> UnifyTerms(st.bindings, lit.atom.terms, reply.tuples[i]) == Some(s.value.bindings)
    requires after == if s.None? then mid
                      else mid + [CallNode(|mid|, lit.atom.pred, reply.tuples[i], EvidenceFor(reply, i))]
    ensures CallLogged(lit, st, reply, i + 1, before, after, if s.Some? then states + [s.value] else states)
  {
    hide UnifyTerms, HitLogged;
    if s.Some? {
      var hits := Hits(st.bindings, lit.atom.terms, reply.tuples, i);
      HitIsLogged(lit, st, reply, i, |mid|, s.value);
      forall k | 0 <= k < |hits| + 1
        ensures HitLogged(lit, st, reply, (hits + [i])[k], |before| + k, after[|before| + k], (states + [s.value])[k])
      {
        assert k < |hits| ==> HitLogged(lit, st, reply, hits[k], |before| + k, mid[|before| + k], states[k]);
      }
    }
  }

  /** From literal `i` on, evaluation of clause `c` that extends `b` meets no failing call. */
  ghost predicate CallsAnswered(ctx: Context, facts: iset<Atom>, c: nat, i: nat, b: Bindings) {
    forall j: nat, s :: i <= j && Extends(b, s) ==> !CallFailsAt(ctx, facts, c, j, s)
  }

  lemma NoCallsLeft(ctx: Context, facts: iset<Atom>, c: nat, b: Bindings)
    requires c < |ctx.program| && ctx.program[c].Clause?
    ensures CallsAnswered(ctx, facts, c, |ctx.program[c].body|, b)
  {
  }

  lemma CallUnanswered(ctx: Context, facts: iset<Atom>, c: nat, i: nat, b: Bindings, s: Bindings)
    requires c < |ctx.program| && ctx.program[c].Clause? && i < |ctx.program[c].body| && Extends(b, s)
    requires PartialSolution(ctx, facts, ctx.program[c].body, i, s) && CallFails(ctx, ctx.program[c].body[i], s)
    ensures !CallsAnswered(ctx, facts, c, i, b)
  {
    hide CallFails, PartialSolution;
    assert CallFailsAt(ctx, facts, c, i, s);
  }

  /** Whether later calls are answered is decided by the states that matched the literal. */
  lemma StatesAnswered(ctx: Context, facts: iset<Atom>, log: seq<Node>, c: nat, i: nat, st: EvalState,
                       states: seq<EvalState>)
    requires c < |ctx.program| && ctx.program[c].Clause? && ClauseValid(ctx.program, ctx.program[c])
    requires i < |ctx.program[c].body| && st.bindings.Keys == BoundBy(ctx.program[c].body, i)
    requires AllFollow(ctx, facts, log, ctx.program[c].body[i], st, states)
    requires Complete(ctx, facts, ctx.program[c].body[i], st.bindings, states)
    requires !CallFails(ctx, ctx.program[c].body[i], st.bindings)
    ensures CallsAnswered(ctx, facts, c, i, st.bindings) <==>
      forall k :: 0 <= k < |states| ==> CallsAnswered(ctx, facts, c, i + 1, states[k].bindings)
  {
    hide CallFails, Holds, PremiseFits;
    var body := ctx.program[c].body;
    if CallsAnswered(ctx, facts, c, i, st.bindings) {
      forall k, j: nat, s | 0 <= k < |states| && i + 1 <= j && Extends(states[k].bindings, s)
        ensures !CallFailsAt(ctx, facts, c, j, s)
      {
        assert Follows(ctx, facts, log, body[i], st, states[k]);
        assert Extends(st.bindings, s);
      }
    }
    if forall k :: 0 <= k < |states| ==> CallsAnswered(ctx, facts, c, i + 1, states[k].bindings) {
      forall j: nat, s | i <= j && Extends(st.bindings, s)
        ensures !CallFailsAt(ctx, facts, c, j, s)
      {
        if CallFailsAt(ctx, facts, c, j, s) {
          FailureThroughState(ctx, facts, c, i, j, st.bindings, states, s);
        }
      }
    }
  }

  lemma WholeDomain(b: Bindings, s: Bindings)
    requires Extends(b, s) && b.Keys == s.Keys
    ensures s == b
  {
  }

  /** A call that fails further on is reached through one of the states. */
  lemma FailureThroughState(ctx: Context, facts: iset<Atom>, c: nat, i: nat, j: nat, b: Bindings,
                            states: seq<EvalState>, s: Bindings)
    requires CallFailsAt(ctx, facts, c, j, s) && ClauseValid(ctx.program, ctx.program[c]) && i <= j && Extends(b, s)
    requires b.Keys == BoundBy(ctx.program[c].body, i) && Complete(ctx, facts, ctx.program[c].body[i], b, states)
    requires !CallFails(ctx, ctx.program[c].body[i], b)
    ensures exists k :: 0 <= k < |states| && !CallsAnswered(ctx, facts, c, i + 1, states[k].bindings)
  {
    hide CallFails, Holds;
    var body := ctx.program[c].body;
    if j == i {
      WholeDomain(b, s);
    } else {
      var m := SolutionPrefix(ctx, facts, body, i, j, s);
      assert Restrict(s, BoundBy(body, i)) == b;
      assert Matched(b, body[i], m);
      assert Covers(states, m);
      var k :| 0 <= k < |states| && states[k].bindings == m;
      assert !CallsAnswered(ctx, facts, c, i + 1, states[k].bindings);
    }
  }

  lemma ClauseCalls(ctx: Context, facts: iset<Atom>, c: nat)
    ensures CallsAnswered(ctx, facts, c, 0, map[]) <==> forall j: nat, s :: !CallFailsAt(ctx, facts, c, j, s)
  {
    forall j: nat, s | CallsAnswered(ctx, facts, c, 0, map[])
      ensures !CallFailsAt(ctx, facts, c, j, s)
    {
      assert Extends(map[], s);
    }
  }

  lemma CallsInClauses(ctx: Context, facts: iset<Atom>)
    ensures forall c: nat, j: nat, s :: CallFailsAt(ctx, facts, c, j, s) ==>
      c < |ctx.program| && ctx.program[c].Clause?
  {
  }

  ghost predicate AllFollow(ctx: Context, facts: iset<Atom>, log: seq<Node>, lit: Literal, st: EvalState,
                            states: seq<EvalState>) {
    forall k :: 0 <= k < |states| ==> Follows(ctx, facts, log, lit, st, states[k])
  }

  lemma AllFollowGrows(ctx: Context, facts: iset<Atom>, log: seq<Node>, longer: seq<Node>, lit: Literal, st: EvalState,
                       states: seq<EvalState>)
    requires log <= longer && AllFollow(ctx, facts, log, lit, st, states)
    ensures AllFollow(ctx, facts, longer, lit, st, states)
  {
    forall k | 0 <= k < |states|
      ensures Follows(ctx, facts, longer, lit, st, states[k])
    {
      FollowsGrows(ctx, facts, log, longer, lit, st, states[k]);
    }
  }

  ghost predicate TuplesCovered(b: Bindings, ts: seq<Term>, tuples: seq<seq<Term>>, states: seq<EvalState>) {
    forall tuple :: tuple in tuples && UnifyTerms(b, ts, tuple).Some? ==> Covers(states, UnifyTerms(b, ts, tuple).value)
  }

  lemma TuplesCoveredMore(b: Bindings, ts: seq<Term>, tuples: seq<seq<Term>>, tuple: seq<Term>, states: seq<EvalState>,
                          s: Option<EvalState>)
    requires TuplesCovered(b, ts, tuples, states)
    requires s.Some? <==> UnifyTerms(b, ts, tuple).Some?
    requires s.Some? ==> UnifyTerms(b, ts, tuple) == Some(s.value.bindings)
    ensures TuplesCovered(b, ts, tuples + [tuple], if s.Some? then states + [s.value] else states)
  {
    if s.Some? {
      CoversMore(states, s.value);
    }
  }

  lemma TuplesComplete(ctx: Context, facts: iset<Atom>, lit: Literal, b: Bindings, tuples: seq<seq<Term>>,
                       states: seq<EvalState>)
    requires IsCapability(ctx.program, lit) && !lit.negated
    requires var reply := ctx.oracle(lit.atom.pred, CallArgs(lit.atom.terms, b), CallMask(lit.atom.terms, b));
      reply.Some? && reply.value.tuples == tuples
    requires forall tuple :: tuple in tuples ==> GroundTerms(tuple)
    requires TuplesCovered(b, lit.atom.terms, tuples, states)
    ensures Complete(ctx, facts, lit, b, states)
  {
    forall m | Matched(b, lit, m) && Holds(ctx, facts, lit, b, m)
      ensures Covers(states, m)
    {
      UnifyTermsIs(b, lit.atom.terms, Inst(lit.atom.terms, m), m);
    }
  }

  lemma CoversMore(states: seq<EvalState>, s: EvalState)
    ensures forall m :: Covers(states, m) ==> Covers(states + [s], m)
    ensures Covers(states + [s], s.bindings)
  {
    var longer := states + [s];
    forall m | Covers(states, m)
      ensures Covers(longer, m)
    {
      var k :| 0 <= k < |states| && states[k].bindings == m;
      assert longer[k].bindings == m;
    }
    assert longer[|states|].bindings == s.bindings;
  }
}
