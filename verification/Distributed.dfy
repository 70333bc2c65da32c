/** Backward goal resolution with remote queries (src/runtime/distributed.c). */
module Distributed {
  import opened Syntax
  import opened Unify
  import opened Tables
  import opened Semantics
  import opened Negation
  import opened EngineCore
  import opened Canon
  import opened Parser
  import opened RoundTrip
  import opened Reread
  import opened Cbor
  import opened TraceText
  import opened Cert
  import opened Wire
  import opened Network
  import opened Sessions
  import opened Rest

  /** Some bundle carries this query text. */
  ghost predicate Asked(bs: seq<Bundle>, text: string) {
    exists i :: 0 <= i < |bs| && bs[i].query == text
  }

  ghost predicate Derivable(program: seq<Statement>, goal: Atom) {
    exists i :: 0 <= i < |program| && program[i].Clause? && UnifyAtoms(map[], program[i].head, goal, false).Some?
  }

  /** etb_program_has_derivation_for_goal */
  method HasDerivation(program: seq<Statement>, goal: Atom) returns (found: bool)
    ensures found <==> Derivable(program, goal)
    ensures HeadMeets(program, goal) ==> found
    ensures found && AllIndependent(program, goal) ==> HeadMeets(program, goal)
  {
    DerivableMeets(program, goal);
    var i := 0;
    while i < |program|
      invariant 0 <= i <= |program|
      invariant forall k :: 0 <= k < i && program[k].Clause? ==> UnifyAtoms(map[], program[k].head, goal, false).None?
    {
      if program[i].Clause? {
        var unified, _ := UnifyAtom(map[], program[i].head, goal, false);
        if unified {
          return true;
        }
      }
      i := i + 1;
    }
    found := false;
  }

  // ---------- What derivability means ----------

  /** Some clause has a head instance that is also an instance of the goal. */
  ghost predicate HeadMeets(program: seq<Statement>, goal: Atom) {
    exists i :: 0 <= i < |program| && program[i].Clause? && Independent(program[i].head, goal) &&
      Meets(program[i].head, goal)
  }

  ghost predicate AllIndependent(program: seq<Statement>, goal: Atom) {
    forall i :: 0 <= i < |program| && program[i].Clause? ==> Independent(program[i].head, goal)
  }

  lemma DerivableMeets(program: seq<Statement>, goal: Atom)
    ensures HeadMeets(program, goal) ==> Derivable(program, goal)
    ensures Derivable(program, goal) && AllIndependent(program, goal) ==> HeadMeets(program, goal)
  {
    hide Independent, Meets, UnifyAtoms;
    forall i | 0 <= i < |program| && program[i].Clause? && Independent(program[i].head, goal)
      ensures UnifyAtoms(map[], program[i].head, goal, false).Some? <==> Meets(program[i].head, goal)
    {
      IndependentUnify(program[i].head, goal);
    }
  }

  /** A goal without variables is independent of every clause. */
  lemma GroundGoalApart(c: Statement, goal: Atom)
    requires c.Clause? && goal.Ground()
    ensures ClauseApart(c, goal)
  {
    assert Vars(goal.Args()) == {};
  }

  /** The clause and the goal share no variable, and where variables of head and goal meet they occur only there. */
  ghost predicate ClauseApart(c: Statement, goal: Atom)
    requires c.Clause?
  {
    Independent(c.head, goal) && forall j :: 0 <= j < |c.body| ==> Vars(c.body[j].atom.Args()) !! Vars(goal.Args())
  }

  /** Under `s` the clause's head is an instance of the goal. */
  ghost predicate GivesGoal(c: Statement, goal: Atom, s: Bindings)
    requires c.Clause?
  {
    SameShape(c.head, goal, false) && exists t: Bindings :: Inst(c.head.Args(), s) == Inst(goal.Args(), t)
  }

  /** An instance of a body atom, under a substitution that gives the goal, is an instance of the goal's dependency. */
  lemma DependencyCovers(c: Statement, atom: Atom, goal: Atom, s: Bindings) returns (b: Bindings, u: Bindings)
    requires c.Clause? && Independent(c.head, goal) && Vars(atom.Args()) !! Vars(goal.Args()) && GivesGoal(c, goal, s)
    ensures UnifyAtoms(map[], c.head, goal, false) == Some(b)
    ensures InstAtom(InstAtom(atom, b), u) == InstAtom(atom, s)
  {
    var head := c.head;
    var t: Bindings :| Inst(head.Args(), s) == Inst(goal.Args(), t);
    assert Meets(head, goal);
    IndependentUnify(head, goal);
    b := UnifyAtoms(map[], head, goal, false).value;
    var xs := Vars(head.Args()) + Vars(atom.Args());
    u := JoinedInstances(head.Args(), xs, s, goal.Args(), t);
    InstAgree(atom.Args(), u, s);
    UnifyMeetingExact(head.Args(), goal.Args());
    assert Respects(b, u);
    InstTwice(atom.Args(), b, u);
  }

  lemma InstTwice(ts: seq<Term>, b: Bindings, u: Bindings)
    requires Respects(b, u)
    ensures Inst(Inst(ts, b), u) == Inst(ts, u)
  {
    forall i | 0 <= i < |ts|
      ensures Inst(Inst(ts, b), u)[i] == Inst(ts, u)[i]
    {
    }
  }

  predicate NoRepeats(ts: seq<string>) {
    forall i, j :: 0 <= i < j < |ts| ==> ts[i] != ts[j]
  }

  predicate Verified(p: Peer, b: Bundle) {
    p.prover.Some? ==> b.proof != [] && p.prover.value.verify(b.cert, b.proof)
  }

  // ---------- The measure of goal resolution ----------

  ghost function Seen(visited: seq<string>): set<string> {
    set t | t in visited
  }

  /** Goals that are still to be visited. */
  ghost function Unseen(universe: set<string>, visited: seq<string>): nat {
    |universe - Seen(visited)|
  }

  lemma UnseenShrinks(universe: set<string>, visited: seq<string>, more: seq<string>)
    requires visited <= more
    ensures Unseen(universe, more) <= Unseen(universe, visited)
  {
    SubsetSize(universe - Seen(more), universe - Seen(visited));
  }

  lemma UnseenDrops(universe: set<string>, visited: seq<string>, text: string)
    requires text in universe && text !in visited
    ensures Unseen(universe, visited + [text]) < Unseen(universe, visited)
  {
    var a, b := universe - Seen(visited + [text]), universe - Seen(visited);
    assert text in b && text !in a;
    SubsetSize(a, b);
  }

  /** What the terms of a run are drawn from, and the finitely many goals over them. */
  ghost predicate Scope(program: seq<Statement>, ts: set<Term>) {
    HeadsOver(program, ts) && BodiesOver(program, ts) && forall t :: t in ts ==> ParsedTerm(t)
  }

  ghost function Universe(program: seq<Statement>, ts: set<Term>, top: string): set<string> {
    GoalTexts(program, ts) + {top}
  }

  /** A `says` goal that can be sent to a node to which its principal is routed. */
  ghost predicate Sendable(net: Net, goal: Atom, endpoint: string) {
    goal.Says? && Readable(goal) && Routed(net, goal.principal, endpoint)
  }

  /** The atom that the text reads as is among the facts. */
  ghost predicate ReadsHeld(facts: iset<Atom>, text: string) {
    ParseText(text).Some? && ParseText(text).value in facts
  }

  /** If the goal's names are printed as single tokens, then what was fetched for it is the goal itself. */
  lemma HeldIsGoal(facts: iset<Atom>, goal: Atom)
    requires goal.Says? && Named(goal) && Readable(goal)
    ensures ReadsHeld(facts, AtomText(goal)) <==> goal.Ground() && goal in facts
  {
    hide ParseText, AtomText;
    if goal.Ground() {
      GroundPrintable(goal);
      PrintableReads(goal);
    } else {
      VariablesDoNotRead(goal);
    }
  }

  lemma InstIsParsed(program: seq<Statement>, ts: set<Term>, c: nat, j: nat, b: Bindings)
    requires ReadableProgram(program) && Scope(program, ts)
    requires c < |program| && program[c].Clause? && j < |program[c].body|
    requires Over(ts, InstAtom(program[c].body[j].atom, b).Args())
    ensures Readable(InstAtom(program[c].body[j].atom, b))
  {
    hide ParsedTerm, LexName, QuoteFree;
    assert ReadableClause(program[c]);
    assert Readable(program[c].body[j].atom);
  }

  /** The atom is an answer of one of the bundles' certificates. */
  ghost predicate AnswerOf(bs: seq<Bundle>, a: Atom) {
    exists i :: 0 <= i < |bs| && a in AnswersOf(bs[i].cert)
  }

  lemma AnswerOfMore(bs: seq<Bundle>, more: seq<Bundle>, a: Atom)
    requires AnswerOf(bs, a) || AnswerOf(more, a)
    ensures AnswerOf(bs + more, a)
  {
    hide AnswersOf;
    if AnswerOf(bs, a) {
      var i :| 0 <= i < |bs| && a in AnswersOf(bs[i].cert);
      assert (bs + more)[i] == bs[i];
    } else {
      var i :| 0 <= i < |more| && a in AnswersOf(more[i].cert);
      assert (bs + more)[|bs| + i] == more[i];
    }
  }

  // ---------- What goal resolution has provided ----------

  ghost predicate HasAnswer(ctx: Context, facts: iset<Atom>, goal: Atom) {
    exists a :: Answer(ctx, facts, goal, a)
  }

  /** Literal `j` of clause `c`, whose head unifies with the goal, is something the goal depends on. */
  ghost predicate Dependency(program: seq<Statement>, c: nat, j: nat, goal: Atom, b: Bindings) {
    && c < |program| && program[c].Clause? && UnifyAtoms(map[], program[c].head, goal, false) == Some(b)
    && j < |program[c].body| && !program[c].body[j].negated && !IsCapability(program, program[c].body[j])
  }

  /** What a principal says is held, as its text is read; the rest is answered, underivable, or visited itself. */
  ghost predicate Provided(ctx: Context, facts: iset<Atom>, visited: seq<string>, a: Atom) {
    if a.Says? then ReadsHeld(facts, AtomText(a))
    else HasAnswer(ctx, facts, a) || !Derivable(ctx.program, a) || AtomText(a) in visited
  }

  ghost predicate ProvidedUpTo(ctx: Context, facts: iset<Atom>, visited: seq<string>, c: nat, n: nat, goal: Atom) {
    forall j: nat, b :: j < n && Dependency(ctx.program, c, j, goal, b) ==>
      Provided(ctx, facts, visited, InstAtom(ctx.program[c].body[j].atom, b))
  }

  ghost predicate ClauseResolved(ctx: Context, facts: iset<Atom>, visited: seq<string>, c: nat, goal: Atom) {
    c < |ctx.program| && ctx.program[c].Clause? ==> ProvidedUpTo(ctx, facts, visited, c, |ctx.program[c].body|, goal)
  }

  /** The goal has an answer, or every dependency of every clause for it is provided. */
  ghost predicate Resolved(ctx: Context, facts: iset<Atom>, visited: seq<string>, goal: Atom) {
    HasAnswer(ctx, facts, goal) || forall c :: ClauseResolved(ctx, facts, visited, c, goal)
  }

  ghost predicate ResolvedFrom(ctx: Context, facts: iset<Atom>, visited: seq<string>, goals: seq<Atom>, n: nat) {
    forall k :: n <= k < |goals| ==> Resolved(ctx, facts, visited, goals[k])
  }

  /** The atom is an instance of something that is provided. */
  ghost predicate InstanceProvided(ctx: Context, facts: iset<Atom>, visited: seq<string>, x: Atom) {
    exists a, u: Bindings :: Provided(ctx, facts, visited, a) && InstAtom(a, u) == x
  }

  ghost predicate StoredLiteral(program: seq<Statement>, c: nat, j: nat) {
    && c < |program| && program[c].Clause? && j < |program[c].body|
    && !program[c].body[j].negated && !IsCapability(program, program[c].body[j])
  }

  /** Whatever instance of the clause gives an instance of the goal, what its body asks for is provided. */
  ghost predicate ClauseCovered(ctx: Context, facts: iset<Atom>, visited: seq<string>, c: nat, goal: Atom) {
    forall j: nat, s: Bindings :: StoredLiteral(ctx.program, c, j) ==>
      ClauseApart(ctx.program[c], goal) && GivesGoal(ctx.program[c], goal, s) ==>
      InstanceProvided(ctx, facts, visited, InstAtom(ctx.program[c].body[j].atom, s))
  }

  lemma ResolvedCovers(ctx: Context, facts: iset<Atom>, visited: seq<string>, c: nat, goal: Atom)
    requires ClauseResolved(ctx, facts, visited, c, goal)
    ensures ClauseCovered(ctx, facts, visited, c, goal)
  {
    hide Provided, UnifyAtoms, IsCapability, GivesGoal, Independent;
    forall j: nat, s: Bindings | StoredLiteral(ctx.program, c, j)
      ensures ClauseApart(ctx.program[c], goal) && GivesGoal(ctx.program[c], goal, s) ==>
        InstanceProvided(ctx, facts, visited, InstAtom(ctx.program[c].body[j].atom, s))
    {
      if ClauseApart(ctx.program[c], goal) && GivesGoal(ctx.program[c], goal, s) {
        var b, u := DependencyCovers(ctx.program[c], ctx.program[c].body[j].atom, goal, s);
        assert Dependency(ctx.program, c, j, goal, b);
        assert Provided(ctx, facts, visited, InstAtom(ctx.program[c].body[j].atom, b));
      }
    }
  }

  lemma HasAnswerStays(ctx: Context, facts: iset<Atom>, more: iset<Atom>, goal: Atom)
    requires facts <= more && HasAnswer(ctx, facts, goal)
    ensures HasAnswer(ctx, more, goal)
  {
    hide Answer;
    var a :| Answer(ctx, facts, goal, a);
    AnswerMonotone(ctx, facts, more, goal, a);
  }

  lemma ProvidedStays(ctx: Context, facts: iset<Atom>, more: iset<Atom>, visited: seq<string>, longer: seq<string>,
                      c: nat, n: nat, goal: Atom)
    requires facts <= more && visited <= longer && ProvidedUpTo(ctx, facts, visited, c, n, goal)
    ensures ProvidedUpTo(ctx, more, longer, c, n, goal)
  {
    hide HasAnswer, Derivable, UnifyAtoms, IsCapability, AtomText, ParseText;
    forall j: nat, b | j < n && Dependency(ctx.program, c, j, goal, b)
      ensures Provided(ctx, more, longer, InstAtom(ctx.program[c].body[j].atom, b))
    {
      var a := InstAtom(ctx.program[c].body[j].atom, b);
      assert Provided(ctx, facts, visited, a);
      if HasAnswer(ctx, facts, a) {
        HasAnswerStays(ctx, facts, more, a);
      }
    }
  }

  lemma ResolvedStays(ctx: Context, facts: iset<Atom>, more: iset<Atom>, visited: seq<string>, longer: seq<string>,
                      goal: Atom)
    requires facts <= more && visited <= longer && Resolved(ctx, facts, visited, goal)
    ensures Resolved(ctx, more, longer, goal)
  {
    hide HasAnswer, ProvidedUpTo;
    if HasAnswer(ctx, facts, goal) {
      HasAnswerStays(ctx, facts, more, goal);
    } else {
      forall c: nat
        ensures ClauseResolved(ctx, more, longer, c, goal)
      {
        assert ClauseResolved(ctx, facts, visited, c, goal);
        if c < |ctx.program| && ctx.program[c].Clause? {
          ProvidedStays(ctx, facts, more, visited, longer, c, |ctx.program[c].body|, goal);
        }
      }
    }
  }

  /** Goals resolved earlier stay so, and join the ones resolved since. */
  lemma ResolvedJoin(ctx: Context, facts: iset<Atom>, more: iset<Atom>, visited: seq<string>, longer: seq<string>,
                     goals: seq<Atom>, all: seq<Atom>, n: nat)
    requires facts <= more && visited <= longer && goals <= all && n <= |goals|
    requires ResolvedFrom(ctx, facts, visited, goals, n) && ResolvedFrom(ctx, more, longer, all, |goals|)
    ensures ResolvedFrom(ctx, more, longer, all, n)
  {
    hide Resolved;
    forall k | n <= k < |all|
      ensures Resolved(ctx, more, longer, all[k])
    {
      if k < |goals| {
        assert Resolved(ctx, facts, visited, goals[k]);
        ResolvedStays(ctx, facts, more, visited, longer, all[k]);
      }
    }
  }

  lemma ImportedMore(ops: seq<Op>, op: Op)
    ensures Imported(ops + [op]) == Imported(ops) + (if op.Import? then Elements(op.answers) else iset{})
  {
  }

  lemma SomeStageGrows(ctx: Context, start: iset<Atom>, facts: iset<Atom>)
    requires AtSomeStage(ctx, start, facts)
    ensures start <= facts
  {
    hide Stage, Next;
    var n: nat :| n <= 64 && facts == Stage(ctx, start, n);
    StageGrows(ctx, start, 0, n);
    assert Stage(ctx, start, 0) == start by {
      StageStep(ctx, start, 0);
    }
  }

  // ---------- One query's run ----------

  class QueryRun {
    const net: Net
    const here: string
    /** The earliest clock of the network; this run's own clock is the engine's. */
    const clock: nat
    const engine: Engine
    const bundles: BundleList
    var fetched: seq<string>
    var visited: seq<string>
    /** Remote queries sent so far, and bundles whose answers were imported. */
    ghost var sent: seq<string>
    ghost var imported: seq<Bundle>
    /** The goals behind the visited texts, and what the engine has gone through. */
    ghost var goals: seq<Atom>
    ghost var ops: seq<Op>

    /** The engine runs this node's program and holds only facts of the joint least model. */
    ghost predicate Sound()
      reads engine, engine.relations, engine.trace
    {
      && here in net && ValidNet(net) && SemiPositiveNet(net)
      && engine.Valid() && engine.Ctx() == View(net[here], engine.now) && clock <= engine.now
      && engine.Db() <= FactsAt(Joint(net, clock), here) && Steady(engine.Ctx(), engine.Db())
    }

    /** The first fixpoint has stored the facts that settle the program's negations. */
    ghost predicate Primed()
      reads engine, engine.relations
    {
      Ready(engine.Ctx(), engine.Db())
    }

    ghost predicate Accounted(b: Bundle)
      requires here in net
      reads bundles
    {
      Verified(net[here], b) && HasKey(bundles.items, b)
    }

    /** The text of a fetched query reads as a fact that is held. */
    ghost predicate Held(text: string)
      reads engine.relations
    {
      ReadsHeld(engine.Db(), text)
    }

    /** The engine's facts are those of a session that imported what the engine imported. */
    ghost predicate Tracked()
      reads this`ops, engine, engine.relations
    {
      engine.Db() == Session(engine.Ctx(), ops) && Imported(ops) == engine.imports
    }

    ghost predicate Valid()
      reads this, engine, engine.relations, engine.trace, bundles
    {
      && Sound() && Tracked() && (ops != [] ==> Primed()) && DistinctKeys(bundles.items)
      && AllHonest(net, clock, bundles.items)
      && NoRepeats(fetched) && sent == fetched
      && (forall t :: t in fetched ==> Held(t))
      && (forall b :: b in imported ==> Accounted(b))
      && (forall a :: a in engine.imports ==> AnswerOf(imported, a))
      && |goals| == |visited| && forall k :: 0 <= k < |goals| ==> AtomText(goals[k]) == visited[k]
    }

    /** Every goal visited since there were `n` of them is resolved. */
    ghost predicate ResolvedSince(n: nat)
      reads this`visited, this`goals, engine, engine.relations
    {
      ResolvedFrom(engine.Ctx(), engine.Db(), visited, goals, n)
    }

    constructor (net: Net, here: string, clock: nat, now: nat)
      requires here in net && ValidNet(net) && SemiPositiveNet(net) && clock <= now
      ensures Valid() && fresh(engine) && fresh(engine.relations) && fresh(engine.trace) && fresh(bundles)
      ensures this.net == net && this.here == here && this.clock == clock
      ensures visited == [] && goals == [] && ops == []
    {
      hide Joint;
      this.net, this.here, this.clock := net, here, clock;
      assert ValidPeer(net[here]);
      engine := new Engine(net[here].program, now, net[here].oracle);
      bundles := new BundleList();
      fetched, visited, sent, imported, goals, ops := [], [], [], [], [], [];
    }

    /** A fixpoint run stays inside the joint least model. */
    method Rerun() returns (ok: bool)
      requires Sound()
      modifies engine.relations, engine.trace
      ensures Sound() && old(engine.Db()) <= engine.Db()
      ensures ok ==> engine.Db() == Stage(engine.Ctx(), old(engine.Db()), 64)
      ensures ok ==> Validated(engine.program) && Primed()
    {
      hide Engine.Valid, Joint, FactsAt, ValidNet, AtSomeStage, Stage, SemiPositive, Validated, Steady, Ready,
        AdapterFails,
        CallsSucceed, LastPassIdle, Closed;
      ghost var before := engine.Db();
      ghost var rested;
      ok, rested := engine.RunFixpoint();
      if Validated(engine.program) {
        StagesStayJoint(net, clock, here, engine.now, before, engine.Db());
        StagesStaySteady(engine.Ctx(), before, 64);
      }
      SomeStageGrows(engine.Ctx(), before, engine.Db());
    }

    /** etb_engine_run_fixpoint as a step of the query's session */
    method Refresh() returns (ok: bool)
      requires Sound()
      modifies this`ops, engine.relations, engine.trace
      ensures Sound() && old(engine.Db()) <= engine.Db() && old(ops) <= ops
      ensures ok && old(Valid()) ==> Valid() && ops == old(ops) + [Run] && Validated(engine.program)
    {
      hide Sound, Validated, Primed, Engine.Valid, Session, Stage, Imported, AllHonest, DistinctKeys, AnswerOf,
        ParseText, NoRepeats, Accounted,
        AtomText;
      ok := Rerun();
      RunStepIs(engine.Ctx(), ops);
      ImportedMore(ops, Run);
      ops := ops + [Run];
    }

    /** etb_import_remote_bundle */
    method ImportBundle(b: Bundle, ghost g: Atom) returns (ok: bool)
      requires Sound() && Primed() && (ReadCertificate(b.cert).Some? ==> HonestFor(net, clock, b, g))
      modifies this`ops, engine`imports, engine.relations, engine.trace
      ensures Sound() && Primed() && old(engine.Db()) <= engine.Db() && old(ops) <= ops
      ensures ok ==> Verified(net[here], b) && Held(b.query)
      ensures ok && net[here].prover.Some? ==> b.proof != [] && net[here].prover.value.verify(b.cert, b.proof)
      ensures ok && old(Tracked()) ==> Tracked()
      ensures engine.imports <= old(engine.imports) + Elements(AnswersOf(b.cert))
    {
      hide Engine.Valid, Joint, ValidNet, SemiPositiveNet, ReadCertificate, ParseText, Session, Imported, Ready,
        FactsAt, Elements;
      ghost var before := engine.Db();
      var prover := net[here].prover;
      if prover.Some? {
        if b.proof == [] || !prover.value.verify(b.cert, b.proof) {
          return false;
        }
      }
      var c := ReadBytesOf(b.cert);
      if c.None? {
        return false;
      }
      var answers := c.value.answers;
      HonestAnswers(answers, g);
      ok := engine.ImportAnswers(answers, c.value.root);
      StillReady(before, engine.Db(), answers, g);
      ImportStepIs(engine.Ctx(), ops, answers);
      ImportedMore(ops, Import(answers));
      ops := ops + [Import(answers)];
    }

    lemma HonestAnswers(answers: seq<Atom>, g: Atom)
      requires here in net && JointlySaid(net, clock, g)
      requires answers != [] && forall i :: 0 <= i < |answers| ==> answers[i] == g
      ensures forall i :: 0 <= i < |answers| ==> PlainName(answers[i])
      ensures Elements(answers) <= FactsAt(Joint(net, clock), here) && g in Elements(answers)
    {
      hide Joint;
      assert answers[0] in answers;
    }

    /** No program negates what a principal says. */
    lemma StillReady(before: iset<Atom>, facts: iset<Atom>, answers: seq<Atom>, g: Atom)
      requires Ready(engine.Ctx(), before) && g.Says? && g.Ground()
      requires forall i :: 0 <= i < |answers| ==> answers[i] == g
      requires before <= facts <= before + Elements(answers)
      ensures Ready(engine.Ctx(), facts)
    {
      hide Base;
    }

    /** All bundles of a response (source lines 1669-1679). */
    method ImportAll(bs: seq<Bundle>) returns (ok: bool)
      requires Sound() && Primed() && AllHonest(net, clock, bs)
      modifies this`ops, engine`imports, engine.relations, engine.trace
      ensures Sound() && Primed() && old(engine.Db()) <= engine.Db() && old(ops) <= ops
      ensures ok ==> forall i :: 0 <= i < |bs| ==> Verified(net[here], bs[i]) && Held(bs[i].query)
      ensures ok && old(Tracked()) ==> Tracked()
      ensures forall a :: a in engine.imports ==> a in old(engine.imports) || AnswerOf(bs, a)
    {
      hide Engine.Valid, Joint, ValidNet, SemiPositiveNet, Steady, FactsAt, Primed, Verified, AnswersOf, HonestFor,
        Tracked, ParseText, ReadCertificate;
      var i := 0;
      while i < |bs|
        invariant 0 <= i <= |bs| && here in net && Sound() && Primed() && old(engine.Db()) <= engine.Db()
        invariant old(ops) <= ops
        invariant old(Tracked()) ==> Tracked()
        invariant forall a :: a in engine.imports ==> a in old(engine.imports) || AnswerOf(bs, a)
        invariant forall k :: 0 <= k < i ==> Verified(net[here], bs[k]) && Held(bs[k].query)
      {
        assert Honest(net, clock, bs[i]);
        ghost var g :| ReadCertificate(bs[i].cert).Some? ==> HonestFor(net, clock, bs[i], g);
        ok := ImportBundle(bs[i], g);
        if !ok {
          return;
        }
        i := i + 1;
      }
      ok := true;
    }

    /** One remote query, unless it was fetched before (source lines 1657-1689). */
    method Fetch(ghost goal: Atom, endpoint: string, text: string, fuel: nat) returns (ok: bool)
      requires Valid() && ops != [] && Sendable(net, goal, endpoint) && text == AtomText(goal)
      modifies this`fetched, this`sent, this`imported, this`ops, engine`imports, engine.relations, engine.trace, bundles
      ensures Sound() && NoRepeats(sent) && old(sent) <= sent && old(ops) <= ops && old(engine.Db()) <= engine.Db()
      ensures ok ==> Valid() && Held(text)
      decreases fuel, 1, 0, 0
    {
      hide ValidNet, SemiPositiveNet, Engine.Valid, FactsAt, Joint, AllHonest, DistinctKeys, Verified, HasKey,
        Sendable, AtomText,
        AnswerOf, ParseText, Tracked;
      if text in fetched {
        return true;
      }
      sent := sent + [text];
      var remote;
      ok, remote := RemoteQuery(net, endpoint, text, clock, fuel, goal);
      if !ok {
        return;
      }
      ok := ImportAll(remote.items);
      if !ok {
        return;
      }
      ghost var was := imported;
      Receive(remote.items, text);
      forall a | a in engine.imports
        ensures AnswerOf(imported, a)
      {
        AnswerOfMore(was, remote.items, a);
      }
      ok := Refresh();
    }

    /** The response's bundles join the list, and the query is noted (source lines 1680-1681). */
    method Receive(bs: seq<Bundle>, text: string)
      requires here in net && DistinctKeys(bundles.items) && AllHonest(net, clock, bundles.items)
      requires AllHonest(net, clock, bs)
      requires (forall b :: b in imported ==> Accounted(b)) && forall b :: b in bs ==> Verified(net[here], b)
      modifies this`fetched, this`imported, bundles
      ensures DistinctKeys(bundles.items) && AllHonest(net, clock, bundles.items)
      ensures fetched == old(fetched) + [text] && imported == old(imported) + bs
      ensures forall b :: b in imported ==> Accounted(b)
    {
      hide AllHonest, DistinctKeys, Verified, HasKey;
      ghost var before := bundles.items;
      bundles.AppendUnique(bs);
      AppendKeeps(before, bs);
      fetched := fetched + [text];
      imported := imported + bs;
    }

    lemma AppendKeeps(before: seq<Bundle>, more: seq<Bundle>)
      requires DistinctKeys(before) && AllHonest(net, clock, before) && AllHonest(net, clock, more)
      ensures var r := WithBundles(before, more);
        && DistinctKeys(r) && AllHonest(net, clock, r)
        && (forall b :: HasKey(before, b) ==> HasKey(r, b)) && (forall b :: b in more ==> HasKey(r, b))
    {
      hide Honest, SameKey;
      WithBundlesExact(before, more);
      var r := WithBundles(before, more);
      forall i | 0 <= i < |r|
        ensures Honest(net, clock, r[i])
      {
        assert r[i] in r;
        assert r[i] in before || r[i] in more;
      }
      forall b | HasKey(before, b)
        ensures HasKey(r, b)
      {
        var i :| 0 <= i < |before| && SameKey(before[i], b);
        assert r[i] == before[i];
      }
    }

    /** etb_engine_query on a goal of the run; only the log grows. */
    method Ask(goal: Atom) returns (ok: bool, answers: seq<Fact>)
      requires Sound()
      modifies engine.trace
      ensures Sound() && (old(Valid()) ==> Valid())
      ensures ok ==> forall a :: Listed(answers, a) <==> Answer(engine.Ctx(), engine.Db(), goal, a)
      ensures ok ==> (answers != [] <==> HasAnswer(engine.Ctx(), engine.Db(), goal))
    {
      hide Engine.Valid, Joint, FactsAt, ValidNet, SemiPositiveNet, Answer, ParseText, AtomText;
      ok, answers := engine.Query(goal);
      if ok && answers != [] {
        assert Listed(answers, answers[0].atom);
      }
    }

    /** etb_resolve_clause_dependencies */
    method ResolveClause(c: nat, goal: Atom, fuel: nat, ghost ts: set<Term>, ghost top: string) returns (ok: bool)
      requires Valid() && ops != [] && c < |engine.program| && engine.program[c].Clause?
      requires Scope(engine.program, ts) && Over(ts, goal.Args())
      modifies this, engine, engine.relations, engine.trace, bundles
      ensures Sound() && NoRepeats(sent) && old(sent) <= sent && old(ops) <= ops && old(visited) <= visited
      ensures old(goals) <= goals
      ensures old(engine.Db()) <= engine.Db()
      ensures ok ==> Valid() && ResolvedSince(|old(goals)|)
      ensures ok ==> ClauseResolved(engine.Ctx(), engine.Db(), visited, c, goal)
      ensures ok ==> ClauseCovered(engine.Ctx(), engine.Db(), visited, c, goal)
      decreases fuel, 1, Unseen(Universe(engine.program, ts, top), visited), 3
    {
      hide Valid, Sound, Scope, Universe, Unseen, Engine.Valid, AtomText, Over, IsCapability, ResolvedFrom,
        ProvidedUpTo;
      ghost var ctx := engine.Ctx();
      var body := engine.program[c].body;
      var unified, b := UnifyAtom(map[], engine.program[c].head, goal, false);
      ValidIs();
      if !unified {
        NothingNeeded(ctx, engine.Db(), visited, c, goal);
        ResolvedCovers(ctx, engine.Db(), visited, c, goal);
        return true;
      }
      var j := 0;
      NothingVisited(ctx, engine.Db(), visited, goals, c, goal);
      while j < |body|
        invariant 0 <= j <= |body| && Valid() && old(visited) <= visited && old(sent) <= sent && old(goals) <= goals
        invariant old(ops) <= ops
        invariant old(engine.Db()) <= engine.Db()
        invariant ResolvedSince(|old(goals)|) && ProvidedUpTo(ctx, engine.Db(), visited, c, j, goal)
      {
        UnseenShrinks(Universe(engine.program, ts, top), old(visited), visited);
        ghost var facts, seen, some := engine.Db(), visited, goals;
        ok := ResolveLiteral(c, j, goal, b, fuel, ts, top);
        if !ok {
          return;
        }
        ResolvedJoin(ctx, facts, engine.Db(), seen, visited, some, goals, |old(goals)|);
        ProvidedStays(ctx, facts, engine.Db(), seen, visited, c, j, goal);
        OneMoreProvided(ctx, engine.Db(), visited, c, j, goal, b);
        j := j + 1;
      }
      ok := true;
      ValidIs();
      ResolvedCovers(ctx, engine.Db(), visited, c, goal);
    }

    lemma ValidIs()
      requires Valid()
      ensures Sound() && engine.Valid() && Tracked() && NoRepeats(sent)
      ensures |goals| == |visited| && forall k :: 0 <= k < |goals| ==> AtomText(goals[k]) == visited[k]
    {
    }

    /** One literal of the body (source lines 1621-1714). */
    method ResolveLiteral(c: nat, j: nat, goal: Atom, b: Bindings, fuel: nat, ghost ts: set<Term>, ghost top: string)
      returns (ok: bool)
      requires Valid() && ops != [] && c < |engine.program| && engine.program[c].Clause? && j < |engine.program[c].body|
      requires Scope(engine.program, ts) && Over(ts, goal.Args())
      requires UnifyAtoms(map[], engine.program[c].head, goal, false) == Some(b)
      modifies this, engine, engine.relations, engine.trace, bundles
      ensures Sound() && NoRepeats(sent) && old(sent) <= sent && old(ops) <= ops && old(visited) <= visited
      ensures old(goals) <= goals
      ensures old(engine.Db()) <= engine.Db()
      ensures ok ==> Valid() && ResolvedSince(|old(goals)|)
      ensures ok && Dependency(engine.program, c, j, goal, b) ==>
        Provided(engine.Ctx(), engine.Db(), visited, InstAtom(engine.program[c].body[j].atom, b))
      decreases fuel, 1, Unseen(Universe(engine.program, ts, top), visited), 2
    {
      hide Valid, Universe, Unseen, Engine.Valid, AtomText, Over, GoalTexts, UnifyAtoms, Readable, Resolve, Scope,
        FactsAt,
        Steady, QueryRun.Primed, Joint, ValidNet, SemiPositiveNet, Resolved, HasAnswer, Derivable, IsCapability;
      ValidIs();
      var lit := engine.program[c].body[j];
      if lit.negated {
        return true;
      }
      var capability := engine.FindCapability(lit);
      if capability {
        return true;
      }
      var instance := InstAtom(lit.atom, b);
      InstanceFits(c, j, goal, b, ts, top);
      if instance.Says? {
        var endpoint := Resolve(net[here], instance.principal);
        if endpoint.None? {
          return false;
        }
        var text := CanonicalText(instance);
        ok := Fetch(instance, endpoint.value, text, fuel);
        return;
      }
      var answers;
      ok, answers := Ask(instance);
      if !ok {
        ValidIs();
        return;
      }
      if |answers| == 0 {
        var derivable := HasDerivation(engine.program, instance);
        if derivable {
          ok := ResolveGoal(instance, fuel, ts, top);
          return;
        }
      }
      ValidIs();
    }

    /** The instance is a goal of the finite universe, and one that can be sent to whom it is routed. */
    lemma InstanceFits(c: nat, j: nat, goal: Atom, b: Bindings, ts: set<Term>, top: string)
      requires Sound() && c < |engine.program| && engine.program[c].Clause? && j < |engine.program[c].body|
      requires Scope(engine.program, ts) && Over(ts, goal.Args())
      requires UnifyAtoms(map[], engine.program[c].head, goal, false) == Some(b)
      ensures var a := InstAtom(engine.program[c].body[j].atom, b);
        && Over(ts, a.Args()) && AtomText(a) in Universe(engine.program, ts, top)
        && (a.Says? ==> forall e :: Resolve(net[here], a.principal) == Some(e) ==> Sendable(net, a, e))
    {
      hide AtomText, GoalTexts, UnifyAtoms, Readable, Resolve, Joint, FactsAt, Engine.Valid, HeadsOver, BodiesOver,
        Over;
      DependencyIsGoal(engine.program, ts, c, j, goal, b);
      assert ValidPeer(net[here]) && engine.program == net[here].program;
      InstIsParsed(engine.program, ts, c, j, b);
    }

    /** etb_resolve_goal_dependencies */
    method ResolveGoal(goal: Atom, fuel: nat, ghost ts: set<Term>, ghost top: string) returns (ok: bool)
      requires Valid() && ops != [] && Scope(engine.program, ts) && Over(ts, goal.Args())
      requires AtomText(goal) in Universe(engine.program, ts, top)
      modifies this, engine, engine.relations, engine.trace, bundles
      ensures Sound() && NoRepeats(sent) && old(sent) <= sent && old(ops) <= ops && old(visited) <= visited
      ensures old(goals) <= goals
      ensures old(engine.Db()) <= engine.Db()
      ensures ok ==> Valid() && ResolvedSince(|old(goals)|) && AtomText(goal) in visited
      decreases fuel, 1, Unseen(Universe(engine.program, ts, top), visited), 1
    {
      hide Valid, Sound, Scope, Universe, Unseen, Engine.Valid, AtomText, Over, ResolvedFrom, ClauseResolved, HasAnswer,
        Tracked, NoRepeats;
      ghost var ctx := engine.Ctx();
      ValidIs();
      var text := CanonicalText(goal);
      if text in visited {
        NothingVisited(ctx, engine.Db(), visited, goals, 0, goal);
        return true;
      }
      UnseenDrops(Universe(engine.program, ts, top), visited, text);
      Visit(goal, text);
      ghost var grown, some := visited, goals;
      var answers;
      ok, answers := Ask(goal);
      ValidIs();
      if !ok {
        return;
      }
      if |answers| > 0 {
        assert visited[|grown| - 1] == text;
        AnsweredIsResolved(ctx, engine.Db(), visited, goals, goal);
        return;
      }
      ok := ResolveClauses(goal, fuel, ts, top);
      if ok {
        assert visited[|grown| - 1] == text;
        GoalJoins(ctx, engine.Db(), visited, some, goals, goal);
      }
    }

    /** The loop over the clauses (source lines 1757-1767). */
    method ResolveClauses(goal: Atom, fuel: nat, ghost ts: set<Term>, ghost top: string) returns (ok: bool)
      requires Valid() && ops != [] && Scope(engine.program, ts) && Over(ts, goal.Args())
      modifies this, engine, engine.relations, engine.trace, bundles
      ensures Sound() && NoRepeats(sent) && old(sent) <= sent && old(ops) <= ops && old(visited) <= visited
      ensures old(goals) <= goals
      ensures old(engine.Db()) <= engine.Db()
      ensures ok ==> Valid() && ResolvedSince(|old(goals)|)
      ensures ok ==> forall d :: 0 <= d < |engine.program| ==>
        ClauseResolved(engine.Ctx(), engine.Db(), visited, d, goal)
      decreases fuel, 1, Unseen(Universe(engine.program, ts, top), visited), 4
    {
      hide Valid, Sound, Scope, Universe, Unseen, Engine.Valid, AtomText, Over, ResolvedFrom, ClauseResolved, HasAnswer,
        Tracked, NoRepeats;
      ghost var ctx := engine.Ctx();
      var c := 0;
      ValidIs();
      NothingVisited(ctx, engine.Db(), visited, goals, 0, goal);
      while c < |engine.program|
        invariant 0 <= c <= |engine.program| && Valid()
        invariant old(sent) <= sent && old(visited) <= visited && old(goals) <= goals && old(ops) <= ops
        invariant old(engine.Db()) <= engine.Db() && ResolvedSince(|old(goals)|)
        invariant forall d :: 0 <= d < c ==> ClauseResolved(ctx, engine.Db(), visited, d, goal)
      {
        ghost var facts, seen, mid := engine.Db(), visited, goals;
        if engine.program[c].Clause? {
          UnseenShrinks(Universe(engine.program, ts, top), old(visited), visited);
          ok := ResolveClause(c, goal, fuel, ts, top);
          if !ok {
            return;
          }
          ResolvedJoin(ctx, facts, engine.Db(), seen, visited, mid, goals, |old(goals)|);
        } else {
          NoClause(ctx, engine.Db(), visited, c, goal);
        }
        ClausesStay(ctx, facts, engine.Db(), seen, visited, c, goal);
        c := c + 1;
      }
      ok := true;
      ValidIs();
    }

    /** etb_string_list_add on the visited goals */
    method Visit(ghost goal: Atom, text: string)
      requires Valid() && text == AtomText(goal)
      modifies this`visited, this`goals
      ensures Valid() && visited == old(visited) + [text] && goals == old(goals) + [goal]
    {
      hide Sound, Tracked, AllHonest, DistinctKeys, AnswerOf, Held, Accounted, NoRepeats;
      visited := visited + [text];
      goals := goals + [goal];
    }
  }

  lemma NothingNeeded(ctx: Context, facts: iset<Atom>, visited: seq<string>, c: nat, goal: Atom)
    requires c < |ctx.program| && ctx.program[c].Clause? && UnifyAtoms(map[], ctx.program[c].head, goal, false).None?
    ensures ClauseResolved(ctx, facts, visited, c, goal)
    ensures forall goals: seq<Atom> :: ResolvedFrom(ctx, facts, visited, goals, |goals|)
  {
  }

  lemma NothingVisited(ctx: Context, facts: iset<Atom>, visited: seq<string>, goals: seq<Atom>, c: nat, goal: Atom)
    ensures ResolvedFrom(ctx, facts, visited, goals, |goals|)
    ensures ProvidedUpTo(ctx, facts, visited, c, 0, goal)
  {
  }

  lemma OneMoreProvided(ctx: Context, facts: iset<Atom>, visited: seq<string>, c: nat, j: nat, goal: Atom, b: Bindings)
    requires c < |ctx.program| && ctx.program[c].Clause? && j < |ctx.program[c].body|
    requires UnifyAtoms(map[], ctx.program[c].head, goal, false) == Some(b)
    requires ProvidedUpTo(ctx, facts, visited, c, j, goal)
    requires Dependency(ctx.program, c, j, goal, b) ==>
      Provided(ctx, facts, visited, InstAtom(ctx.program[c].body[j].atom, b))
    ensures ProvidedUpTo(ctx, facts, visited, c, j + 1, goal)
  {
    hide Provided, UnifyAtoms, IsCapability;
  }

  lemma AnsweredIsResolved(ctx: Context, facts: iset<Atom>, visited: seq<string>, goals: seq<Atom>, goal: Atom)
    requires goals != [] && goals[|goals| - 1] == goal && HasAnswer(ctx, facts, goal)
    ensures ResolvedFrom(ctx, facts, visited, goals, |goals| - 1)
  {
    hide HasAnswer;
  }

  lemma NoClause(ctx: Context, facts: iset<Atom>, visited: seq<string>, c: nat, goal: Atom)
    requires c < |ctx.program| && !ctx.program[c].Clause?
    ensures ClauseResolved(ctx, facts, visited, c, goal)
  {
  }

  lemma ClausesStay(ctx: Context, facts: iset<Atom>, more: iset<Atom>, visited: seq<string>, longer: seq<string>,
                    n: nat, goal: Atom)
    requires facts <= more && visited <= longer
    requires forall d :: 0 <= d < n ==> ClauseResolved(ctx, facts, visited, d, goal)
    ensures forall d :: 0 <= d < n ==> ClauseResolved(ctx, more, longer, d, goal)
  {
    hide ProvidedUpTo;
    forall d | 0 <= d < n
      ensures ClauseResolved(ctx, more, longer, d, goal)
    {
      assert ClauseResolved(ctx, facts, visited, d, goal);
      if d < |ctx.program| && ctx.program[d].Clause? {
        ProvidedStays(ctx, facts, more, visited, longer, d, |ctx.program[d].body|, goal);
      }
    }
  }

  /** A goal all of whose clauses are resolved joins the goals resolved after it. */
  lemma GoalJoins(ctx: Context, facts: iset<Atom>, visited: seq<string>, some: seq<Atom>, goals: seq<Atom>, goal: Atom)
    requires some != [] && some[|some| - 1] == goal && some <= goals
    requires ResolvedFrom(ctx, facts, visited, goals, |some|)
    requires forall d :: 0 <= d < |ctx.program| ==> ClauseResolved(ctx, facts, visited, d, goal)
    ensures ResolvedFrom(ctx, facts, visited, goals, |some| - 1)
  {
    hide ProvidedUpTo, HasAnswer;
    forall c: nat
      ensures ClauseResolved(ctx, facts, visited, c, goal)
    {
    }
    assert Resolved(ctx, facts, visited, goal);
  }

  /** The node's own bundle: a certificate of exactly the answers its engine gives, with a proof if it has a prover. */
  ghost predicate Emitted(run: QueryRun, text: string, goal: Atom, answers: seq<Atom>, own: Bundle)
    requires run.here in run.net
    reads run.engine, run.engine.relations, run.engine.trace
  {
    && ParseText(text) == Some(goal) && answers != []
    && (forall a :: a in answers <==> Answer(run.engine.Ctx(), run.engine.Db(), goal, a))
    && own.node == run.net[run.here].id && own.query == text
    && own.trace == Some(Render(run.engine.trace.nodes))
    && Fits(goal, answers, NodeDigests(run.engine.trace.nodes))
    && own.cert == CertificateBytes(goal, answers, NodeDigests(run.engine.trace.nodes))
    && (if run.net[run.here].prover.None? then own.proof == []
        else run.net[run.here].prover.value.prove(own.cert) == Some(own.proof))
  }

  /** Each answer holds in the joint least model, at the earliest clock. */
  ghost predicate JointAnswers(net: Net, clock: nat, here: string, goal: Atom, answers: seq<Atom>)
    requires here in net
  {
    forall a :: a in answers ==> Answer(View(net[here], clock), FactsAt(Joint(net, clock), here), goal, a)
  }

  /**
   * etb_execute_query. Every fact the engine holds is in the joint least model. On success so is
   * every answer of the emitted certificate; all imported answers come from bundles that were
   * verified and whose keys are in the returned list; keys in that list are unique; and the node's
   * own bundle is last unless its key was there before.
   */
  method ExecuteQuery(net: Net, here: string, text: string, clock: nat, fuel: nat)
    returns (ok: bool, run: QueryRun, ghost goal: Atom, ghost answers: seq<Atom>, own: Bundle,
             ghost nested: seq<Bundle>)
    requires here in net && ValidNet(net) && SemiPositiveNet(net)
    ensures fresh(run) && fresh(run.bundles) && run.net == net && run.here == here && run.clock == clock
    ensures run.Sound() && NoRepeats(run.sent)
    ensures ok ==> Emitted(run, text, goal, answers, own) && JointAnswers(net, clock, here, goal, answers)
    ensures ok ==> run.bundles.items == WithBundle(nested, own) && DistinctKeys(run.bundles.items)
    ensures ok ==> Asked(run.bundles.items, text)
    ensures ok ==> AllHonest(net, clock, nested)
    ensures ok ==> forall b :: b in run.imported ==> run.Accounted(b)
    ensures ok ==> forall a :: a in run.engine.imports ==> AnswerOf(run.imported, a)
    ensures ok ==> Explored(run, goal) && Covered(run) && Rested(run)
    decreases fuel, 3, 0, 0
  {
    hide QueryRun.Valid, QueryRun.Sound, Engine.Valid, ValidNet, SemiPositiveNet, Joint, FactsAt, ParseText, Answer,
      AtomText,
      NodeDigests, Render, Fits, CertificateBytes, AllHonest, DistinctKeys, NoRepeats, AnswerOf, QueryRun.Accounted,
      JointAnswers, WithBundle, Covered;
    var now: nat :| clock <= now;
    run := new QueryRun(net, here, clock, now);
    goal, answers, nested := Predicate("", [], Untimed), [], [];
    own := Bundle("", "", None, [], []);
    var query, facts;
    ok, query := Prepare(run, text, fuel);
    if !ok {
      return;
    }
    ok, facts := run.Ask(query);
    run.ValidIs();
    if !ok {
      return;
    }
    var atoms := AtomsOf(facts);
    if atoms == [] {
      return false, run, goal, answers, own, nested;
    }
    ok, own := Certify(run, text, query, atoms);
    if !ok {
      return;
    }
    goal, answers, nested := query, atoms, run.bundles.items;
    AnswersAreJoint(run, query, atoms);
    ExploredCovers(run);
    AddOwn(run, own);
  }

  /** The goal and all it led to were visited, and everything they depend on is provided. */
  ghost predicate Explored(run: QueryRun, goal: Atom)
    reads run, run.engine, run.engine.relations
  {
    && AtomText(goal) in run.visited && run.ResolvedSince(0)
    && |run.goals| == |run.visited| && forall k :: 0 <= k < |run.goals| ==> AtomText(run.goals[k]) == run.visited[k]
  }

  /** Every visited goal has an answer, or each clause that can give an instance of it has what it asks for. */
  ghost predicate Covered(run: QueryRun)
    reads run, run.engine, run.engine.relations
  {
    forall k, c: nat :: 0 <= k < |run.goals| && !HasAnswer(run.engine.Ctx(), run.engine.Db(), run.goals[k]) ==>
      ClauseCovered(run.engine.Ctx(), run.engine.Db(), run.visited, c, run.goals[k])
  }

  lemma ExploredCovers(run: QueryRun)
    requires run.ResolvedSince(0)
    ensures Covered(run)
  {
    hide HasAnswer, ClauseResolved, ClauseCovered;
    forall k, c: nat | 0 <= k < |run.goals| && !HasAnswer(run.engine.Ctx(), run.engine.Db(), run.goals[k])
      ensures ClauseCovered(run.engine.Ctx(), run.engine.Db(), run.visited, c, run.goals[k])
    {
      assert Resolved(run.engine.Ctx(), run.engine.Db(), run.visited, run.goals[k]);
      ResolvedCovers(run.engine.Ctx(), run.engine.Db(), run.visited, c, run.goals[k]);
    }
  }

  /** The facts are those of a session that begins and ends with a fixpoint run. */
  ghost predicate Rested(run: QueryRun)
    reads run`ops, run.engine, run.engine.relations
  {
    && run.Tracked() && Validated(run.engine.program)
    && |run.ops| >= 2 && run.ops[0] == Run && run.ops[|run.ops| - 1] == Run
  }

  /** Fixpoint, query text, dependencies, fixpoint (source lines 1797-1804). */
  method Prepare(run: QueryRun, text: string, fuel: nat) returns (ok: bool, goal: Atom)
    requires run.Valid() && run.goals == [] && run.ops == []
    modifies run, run.engine, run.engine.relations, run.engine.trace, run.bundles
    ensures run.Sound() && NoRepeats(run.sent) && (ok ==> run.Valid() && ParseText(text) == Some(goal))
    ensures ok ==> Explored(run, goal) && Rested(run)
    decreases fuel, 2, 0, 0
  {
    hide QueryRun.Valid, QueryRun.Sound, Engine.Valid, ParseText, Scope, Over, TermsOf, GoalTexts, NoRepeats, AtomText,
      ResolvedFrom, QueryRun.Tracked;
    goal := Predicate("", [], Untimed);
    run.ValidIs();
    ok := run.Refresh();
    if !ok {
      return;
    }
    run.ValidIs();
    var query := ParseAtomText(text);
    if query.None? {
      return false, goal;
    }
    goal := query.value;
    TopScope(run, text);
    ok := run.ResolveGoal(goal, fuel, TermsOf(run.engine.program, goal), AtomText(goal));
    if !ok {
      return;
    }
    run.ValidIs();
    ghost var facts := run.engine.Db();
    ok := run.Refresh();
    if !ok {
      return;
    }
    run.ValidIs();
    NothingVisited(run.engine.Ctx(), run.engine.Db(), run.visited, run.goals, 0, goal);
    ResolvedJoin(run.engine.Ctx(), facts, run.engine.Db(), run.visited, run.visited, run.goals, run.goals, 0);
  }

  lemma TopScope(run: QueryRun, text: string)
    requires run.Valid() && ParseText(text).Some?
    ensures var goal := ParseText(text).value;
      && Scope(run.engine.program, TermsOf(run.engine.program, goal))
      && Over(TermsOf(run.engine.program, goal), goal.Args())
  {
    hide Engine.Valid, Joint, FactsAt, ParseText, TermsOf, HeadsOver, BodiesOver, ReadableProgram, ParsedTerm, Over,
      AllHonest, DistinctKeys;
    assert ValidPeer(run.net[run.here]) && run.engine.program == run.net[run.here].program;
    ParserOutput(text);
    TermsOfScope(run.engine.program, ParseText(text).value);
  }

  /** Certificate, proof and rendered log of the node's own bundle. */
  method Certify(run: QueryRun, text: string, goal: Atom, answers: seq<Atom>) returns (ok: bool, own: Bundle)
    requires run.here in run.net && ParseText(text) == Some(goal) && answers != []
    requires forall a :: a in answers <==> Answer(run.engine.Ctx(), run.engine.Db(), goal, a)
    ensures ok ==> Emitted(run, text, goal, answers, own)
  {
    hide ParseText, Answer, NodeDigests, Render, Fits, CertificateBytes, Body, RootOf;
    own := Bundle("", "", None, [], []);
    var cbor, root;
    var digests := DigestNodes(run.engine.trace.nodes);
    ok, cbor, root := BuildCertificate(goal, answers, digests);
    if !ok {
      return;
    }
    var proof := [];
    var prover := run.net[run.here].prover;
    if prover.Some? {
      var proved := prover.value.prove(cbor);
      if proved.None? {
        return false, own;
      }
      proof := proved.value;
    }
    var listing := RenderTrace(run.engine.trace.nodes);
    own := Bundle(run.net[run.here].id, text, Some(listing), cbor, proof);
  }

  lemma AnswersAreJoint(run: QueryRun, goal: Atom, answers: seq<Atom>)
    requires run.Sound() && forall a :: a in answers ==> Answer(run.engine.Ctx(), run.engine.Db(), goal, a)
    ensures JointAnswers(run.net, run.clock, run.here, goal, answers)
  {
    hide Engine.Valid, Joint, FactsAt, Answer, ValidNet, SemiPositiveNet;
    var held := FactsAt(Joint(run.net, run.clock), run.here);
    forall a | a in answers
      ensures Answer(View(run.net[run.here], run.clock), held, goal, a)
    {
      AnswerMonotone(run.engine.Ctx(), run.engine.Db(), held, goal, a);
      AnswerEarlier(run.engine.Ctx(), run.clock, held, goal, a);
      assert run.engine.Ctx().(now := run.clock) == View(run.net[run.here], run.clock);
    }
  }

  /** The node's own bundle goes into the list (source lines 1881-1884). */
  method AddOwn(run: QueryRun, own: Bundle)
    requires run.Valid()
    modifies run.bundles
    ensures run.Sound() && run.bundles.items == WithBundle(old(run.bundles.items), own)
    ensures DistinctKeys(run.bundles.items) && AllHonest(run.net, run.clock, old(run.bundles.items))
    ensures Asked(run.bundles.items, own.query)
    ensures forall b :: b in run.imported ==> run.Accounted(b)
    ensures forall a :: a in run.engine.imports ==> AnswerOf(run.imported, a)
  {
    hide Engine.Valid, Joint, FactsAt, ValidNet, SemiPositiveNet, AllHonest, DistinctKeys, AnswerOf, Verified, HasKey;
    ghost var nested := run.bundles.items;
    run.bundles.AddCopy(own);
    AddKeeps(nested, own);
  }

  lemma AddKeeps(bs: seq<Bundle>, own: Bundle)
    requires DistinctKeys(bs)
    ensures DistinctKeys(WithBundle(bs, own)) && forall b :: HasKey(bs, b) ==> HasKey(WithBundle(bs, own), b)
    ensures Asked(WithBundle(bs, own), own.query)
  {
    if HasKey(bs, own) {
      var i :| 0 <= i < |bs| && SameKey(bs[i], own);
      assert bs[i].query == own.query;
    } else {
      assert WithBundle(bs, own)[|bs|] == own;
    }
    WithBundlesExact(bs, [own]);
    assert WithBundles(bs, [own]) == WithBundle(bs, own) by {
      assert [own][..0] == [];
    }
    var r := WithBundle(bs, own);
    forall b | HasKey(bs, b)
      ensures HasKey(r, b)
    {
      var i :| 0 <= i < |bs| && SameKey(bs[i], b);
      assert r[i] == bs[i];
    }
  }

  /** A node asked for a routed `says` goal answers with honest bundles only. */
  lemma ReplyIsHonest(run: QueryRun, sent: Atom, goal: Atom, answers: seq<Atom>, own: Bundle, nested: seq<Bundle>)
    requires run.Sound() && Sendable(run.net, sent, run.here) && AllHonest(run.net, run.clock, nested)
    requires Emitted(run, AtomText(sent), goal, answers, own)
    ensures AllHonest(run.net, run.clock, WithBundle(nested, own))
  {
    hide QueryRun.Sound, ParseText, AtomText, Answer, Fits, CertificateBytes, NodeDigests, Render,
      Shaped, AllParsed, Routed, Printable, JointlySaid, HasKey, Honest;
    RereadsOnce(sent);
    if Printable(goal) {
      forall a | a in answers
        ensures a == goal && JointlySaid(run.net, run.clock, goal)
      {
        Said(run, goal, a);
      }
    }
    assert forall i :: 0 <= i < |answers| ==> answers[i] in answers;
    assert answers[0] in answers;
    OwnIsHonest(run.net, run.clock, own, goal, answers, NodeDigests(run.engine.trace.nodes));
  }

  lemma Said(run: QueryRun, goal: Atom, a: Atom)
    requires run.Sound() && goal.Says? && Printable(goal) && Routed(run.net, goal.principal, run.here)
    requires Answer(run.engine.Ctx(), run.engine.Db(), goal, a)
    ensures a == goal && JointlySaid(run.net, run.clock, goal)
  {
    hide Engine.Valid, Joint, FactsAt, ValidNet, SemiPositiveNet, Answer, Named, PrintableTerm, Routed, Steady;
    assert goal.Ground() by {
      PrintableGround(goal);
    }
    AnswerTransfers(run.net, run.clock, run.here, run.engine.now, run.engine.Db(), goal, a);
  }

  lemma PrintableGround(goal: Atom)
    requires Printable(goal)
    ensures goal.Ground()
  {
  }

  /** Everything a session imports is kept. */
  lemma {:induction false} ImportedKept(ctx: Context, ops: seq<Op>)
    ensures Imported(ops) <= Session(ctx, ops)
  {
    if ops != [] {
      var before, op := ops[..|ops| - 1], ops[|ops| - 1];
      assert ops == before + [op];
      ImportedKept(ctx, before);
      if op.Run? {
        StageGrows(ctx, Session(ctx, before), 0, 64);
      }
    }
  }

  /** At rest, a run holds exactly the least set around everything it imported. */
  lemma RestedIsLeastModel(run: QueryRun)
    requires run.Sound() && Rested(run) && Closed(run.engine.Ctx(), run.engine.Db())
    ensures run.engine.Db() == LeastOver(run.engine.Ctx(), run.engine.imports)
  {
    hide Engine.Valid, Joint, FactsAt, Closed, LeastOver, Session, Imported, Fitting, Base, SemiPositive, Validated;
    ImportedKept(run.engine.Ctx(), run.ops);
    SteadySettles(run.engine.Ctx(), run.ops);
  }

  /** And so it does, before anything is known of the run, if its clause heads have few instances. */
  lemma SmallRunIsLeastModel(run: QueryRun, cs: set<Term>)
    requires run.Sound() && Rested(run)
    requires Constants(run.engine.Ctx(), run.engine.imports, cs)
    requires |HeadInstances(run.engine.program, cs)| <= 64
    ensures run.engine.Db() == LeastOver(run.engine.Ctx(), run.engine.imports)
  {
    hide QueryRun.Sound, Engine.Valid, Closed, LeastOver, Session, Imported, Validated, Constants, HeadInstances;
    SmallSessionRests(run.engine.Ctx(), run.ops, cs);
    RestedIsLeastModel(run);
  }

  /**
   * etb_remote_query_with_context: the peer runs the query and encodes its bundles, the caller
   * decodes them. All bundles that arrive are honest.
   */
  method RemoteQuery(net: Net, endpoint: string, text: string, clock: nat, fuel: nat, ghost sent: Atom)
    returns (ok: bool, bundles: BundleList)
    requires ValidNet(net) && SemiPositiveNet(net) && Sendable(net, sent, endpoint) && text == AtomText(sent)
    ensures fresh(bundles)
    ensures ok ==> AllHonest(net, clock, bundles.items) && DistinctKeys(bundles.items) && Asked(bundles.items, text)
    decreases fuel, 0, 0, 0
  {
    hide ValidNet, SemiPositiveNet, AtomText, AllHonest, DistinctKeys, Sendable, ReadResponse, Asked;
    bundles := new BundleList();
    if fuel == 0 || endpoint !in net {
      return false, bundles;
    }
    var payload := Respond(net, endpoint, text, clock, fuel, sent);
    var routes, resolved;
    ok, bundles, routes, resolved := DecodeResponse(payload, 8);
  }

  /** The peer's side: the response it sends (source lines 1992-2039). */
  method Respond(net: Net, endpoint: string, text: string, clock: nat, fuel: nat, ghost sent: Atom)
    returns (payload: bytes)
    requires ValidNet(net) && SemiPositiveNet(net) && Sendable(net, sent, endpoint) && text == AtomText(sent)
    requires fuel > 0 && endpoint in net
    ensures var r := ReadResponse(payload, 8); r.Some? ==>
      AllHonest(net, clock, r.value.bundles) && DistinctKeys(r.value.bundles) && Asked(r.value.bundles, text)
    decreases fuel - 1, 4, 0, 0
  {
    hide QueryRun.Sound, ValidPeer, SemiPositiveNet, AtomText, Emitted, AllHonest, DistinctKeys, NoRepeats, AnswerOf,
      QueryRun.Accounted, JointAnswers, WithBundle, Sendable, WireBundles, WireRoutes, ReadResponse, ResponseItem,
      Snapshot, Published, Explored, Rested, Asked;
    ghost var goal, answers, nested;
    var answered, run, own;
    answered, run, goal, answers, own, nested := ExecuteQuery(net, endpoint, text, clock, fuel - 1);
    if answered && WireBundles(run.bundles.items) && WireRoutes(Snapshot(net[endpoint])) {
      ReplyIsHonest(run, sent, goal, answers, own, nested);
      payload := EncodeOk(run.bundles.items, Snapshot(net[endpoint]), None);
      ReplyReads(net[endpoint], run.bundles.items);
    } else {
      payload := EncodeError("remote query failed");
      FailureReads();
    }
  }

  lemma ReplyReads(p: Peer, bs: seq<Bundle>)
    requires ValidPeer(p) && WireBundles(bs) && DistinctKeys(bs) && WireRoutes(Snapshot(p))
    ensures var r := ReadResponse(ResponseItem(true, "", bs, Published(Snapshot(p)), None), 8);
      r.Some? && r.value.bundles == bs
  {
    hide ReadResponse, ResponseItem, Published, Snapshot;
    ResolveOrder(p, "");
    PublishedRoutes(Snapshot(p));
    ResponseReads(true, "", bs, Published(Snapshot(p)), None, 8);
  }

  lemma FailureReads()
    ensures ReadResponse(ResponseItem(false, "remote query failed", [], [], None), 8).None?
  {
    hide ReadResponse, ResponseItem;
    ResponseReads(false, "remote query failed", [], [], None, 8);
  }
}
