/** Runs that interleave imports and fixpoints, and the local daemon's run (src/runtime/daemon.c). */
module Sessions {
  import opened Syntax
  import opened Unify
  import opened Tables
  import opened Delegation
  import opened Semantics
  import opened EngineCore
  import opened Cbor
  import opened Parser
  import opened TraceText
  import opened Cert
  import opened Negation

  datatype Op = Import(answers: seq<Atom>) | Run

  ghost function After(ctx: Context, facts: iset<Atom>, op: Op): iset<Atom> {
    match op
    case Import(answers) => facts + Elements(answers)
    case Run => Stage(ctx, facts, 64)
  }

  /** The stored facts once an engine that began empty has gone through `ops`. */
  ghost function Session(ctx: Context, ops: seq<Op>): iset<Atom> {
    if ops == [] then iset{} else After(ctx, Session(ctx, ops[..|ops| - 1]), ops[|ops| - 1])
  }

  ghost function Imported(ops: seq<Op>): iset<Atom> {
    iset op, a | op in ops && op.Import? && a in op.answers :: a
  }

  lemma LeastModelMonotone(ctx: Context, start: iset<Atom>, more: iset<Atom>)
    requires start <= more
    ensures LeastModel(ctx, start) <= LeastModel(ctx, more)
  {
    forall a | a in LeastModel(ctx, start)
      ensures InEveryModel(ctx, more, a)
    {
      forall facts | Model(ctx, more, facts)
        ensures a in facts
      {
        assert Model(ctx, start, facts);
      }
    }
  }

  lemma StageWithin(ctx: Context, start: iset<Atom>, base: iset<Atom>, n: nat)
    requires Positive(ctx.program) && start <= LeastModel(ctx, base)
    ensures Stage(ctx, start, n) <= LeastModel(ctx, base)
  {
    LeastModelIsModel(ctx, base);
    assert Model(ctx, start, LeastModel(ctx, base));
    StageInModel(ctx, start, n, LeastModel(ctx, base));
  }

  /** Every session keeps what was imported and never leaves the least model over it. */
  lemma {:induction false} SessionBounds(ctx: Context, ops: seq<Op>)
    requires Positive(ctx.program)
    ensures Imported(ops) <= Session(ctx, ops) <= LeastModel(ctx, Imported(ops))
  {
    if ops != [] {
      var before, op := ops[..|ops| - 1], ops[|ops| - 1];
      SessionBounds(ctx, before);
      assert ops == before + [op];
      assert Imported(before) <= Imported(ops);
      LeastModelMonotone(ctx, Imported(before), Imported(ops));
      LeastModelIsModel(ctx, Imported(ops));
      if op.Run? {
        StageGrows(ctx, Session(ctx, before), 0, 64);
        StageWithin(ctx, Session(ctx, before), Imported(ops), 64);
      }
    }
  }

  /** A validated program that is only ever given ground answers holds ground facts after any session. */
  lemma {:induction false} SessionGround(ctx: Context, ops: seq<Op>)
    requires Validated(ctx.program) && AllGround(Imported(ops))
    ensures AllGround(Session(ctx, ops))
  {
    if ops != [] {
      var before, op := ops[..|ops| - 1], ops[|ops| - 1];
      assert ops == before + [op];
      assert Imported(before) <= Imported(ops);
      SessionGround(ctx, before);
      if op.Run? {
        StageGround(ctx, Session(ctx, before), 64);
      } else {
        assert Elements(op.answers) <= Imported(ops);
      }
    }
  }

  /** A session that comes to rest holds exactly the least model of the program and all imports. */
  lemma SessionSettles(ctx: Context, ops: seq<Op>)
    requires Positive(ctx.program) && Closed(ctx, Session(ctx, ops))
    ensures Session(ctx, ops) == LeastModel(ctx, Imported(ops))
  {
    SessionBounds(ctx, ops);
    assert Model(ctx, Imported(ops), Session(ctx, ops));
    forall a | a in LeastModel(ctx, Imported(ops))
      ensures a in Session(ctx, ops)
    {
      assert InEveryModel(ctx, Imported(ops), a);
    }
  }

  /** Confluence: neither the order nor the grouping of imports and runs matters. */
  lemma Confluence(ctx: Context, ops: seq<Op>, other: seq<Op>)
    requires Positive(ctx.program) && Imported(ops) == Imported(other)
    requires Closed(ctx, Session(ctx, ops)) && Closed(ctx, Session(ctx, other))
    ensures Session(ctx, ops) == Session(ctx, other)
  {
    SessionSettles(ctx, ops);
    SessionSettles(ctx, other);
  }

  // ---------- Sessions of programs with negation ----------

  /** Nothing is imported before the first fixpoint. */
  predicate RunsFirst(ops: seq<Op>) {
    ops == [] || ops[0] == Run
  }

  ghost predicate FittingImports(ctx: Context, ops: seq<Op>) {
    forall a :: a in Imported(ops) ==> Fitting(ctx, a)
  }

  lemma LeastOverMonotone(ctx: Context, start: iset<Atom>, more: iset<Atom>)
    requires start <= more
    ensures LeastOver(ctx, start) <= LeastOver(ctx, more)
  {
    hide ClosedOver, Base;
    forall a | a in LeastOver(ctx, start)
      ensures InEveryClosed(ctx, more, a)
    {
      assert InEveryClosed(ctx, start, a);
    }
  }

  lemma ReadyImports(ctx: Context, facts: iset<Atom>, more: iset<Atom>)
    requires Ready(ctx, facts) && forall a :: a in more ==> Fitting(ctx, a)
    ensures Ready(ctx, facts + more)
  {
    hide Fitting, Base;
  }

  /**
   * With semi-positive negation: every session that begins with a fixpoint keeps what was imported
   * and never leaves the least set around it.
   */
  lemma {:induction false} SteadySession(ctx: Context, ops: seq<Op>)
    requires Validated(ctx.program) && SemiPositive(ctx.program) && RunsFirst(ops) && FittingImports(ctx, ops)
    ensures Steady(ctx, Session(ctx, ops)) && (ops != [] ==> Ready(ctx, Session(ctx, ops)))
    ensures Imported(ops) <= Session(ctx, ops) <= LeastOver(ctx, Imported(ops))
  {
    hide Ready, SemiPositive, Validated, Fitting, Base, LeastOver, ClosedOver;
    if ops != [] {
      var before, op := ops[..|ops| - 1], ops[|ops| - 1];
      assert ops == before + [op];
      assert Imported(before) <= Imported(ops);
      SteadySession(ctx, before);
      LeastOverMonotone(ctx, Imported(before), Imported(ops));
      LeastOverIsClosed(ctx, Imported(ops));
      if op.Run? {
        StageGrows(ctx, Session(ctx, before), 0, 64);
        StagesStaySteady(ctx, Session(ctx, before), 64);
        StageInClosed(ctx, Session(ctx, before), 64, LeastOver(ctx, Imported(ops)));
      } else {
        assert before != [];
        assert Elements(op.answers) <= Imported(ops);
        ReadyImports(ctx, Session(ctx, before), Elements(op.answers));
      }
    }
  }

  /** At rest it holds exactly that least set. */
  lemma SteadySettles(ctx: Context, ops: seq<Op>)
    requires Validated(ctx.program) && SemiPositive(ctx.program) && RunsFirst(ops) && FittingImports(ctx, ops)
    requires ops != [] && Closed(ctx, Session(ctx, ops))
    ensures Session(ctx, ops) == LeastOver(ctx, Imported(ops))
  {
    hide Ready, SemiPositive, Validated, Base, Closed, ClosedOver, Session, Imported, FittingImports;
    SteadySession(ctx, ops);
    SettledIsClosedOver(ctx, Session(ctx, ops));
    forall a | a in LeastOver(ctx, Imported(ops))
      ensures a in Session(ctx, ops)
    {
      assert InEveryClosed(ctx, Imported(ops), a);
    }
  }

  lemma SteadyConfluence(ctx: Context, ops: seq<Op>, other: seq<Op>)
    requires Validated(ctx.program) && SemiPositive(ctx.program) && Imported(ops) == Imported(other)
    requires RunsFirst(ops) && RunsFirst(other) && FittingImports(ctx, ops) && ops != [] && other != []
    requires Closed(ctx, Session(ctx, ops)) && Closed(ctx, Session(ctx, other))
    ensures Session(ctx, ops) == Session(ctx, other)
  {
    hide SemiPositive, Validated, Closed, LeastOver;
    SteadySettles(ctx, ops);
    SteadySettles(ctx, other);
  }

  /** b(a). r(X) :- k says q(X), not b(X). */
  function DenyImported(): seq<Statement> {
    var x := Variable("X");
    [ Clause(Plain("b", Symbol("a")), []),
      Clause(Plain("r", x), [Literal(false, Says("k", "q", [x], Untimed)), Literal(true, Plain("b", x))]) ]
  }

  function SaidQ(): Atom {
    Says("k", "q", [Symbol("a")], Untimed)
  }

  /**
   * The first fixpoint matters once there is negation: importing before it derives r(a) against an
   * empty store, and the same import after it does not.
   */
  lemma ImportBeforeRunDiffers(now: nat, oracle: Oracle)
    ensures var ctx := Context(DenyImported(), now, oracle);
      && Validated(ctx.program) && SemiPositive(ctx.program)
      && Plain("r", Symbol("a")) in Session(ctx, [Import([SaidQ()]), Run])
      && Plain("r", Symbol("a")) !in Session(ctx, [Run, Import([SaidQ()]), Run])
  {
    hide SemiPositive, Validated, Session, Stage;
    var ctx := Context(DenyImported(), now, oracle);
    DenyImportedIsSemiPositive();
    EarlyImport(ctx);
    LateImport(ctx);
  }

  lemma DenyImportedIsSemiPositive()
    ensures Validated(DenyImported()) && SemiPositive(DenyImported())
  {
    hide IsCapability, RangeRestricted;
    var program := DenyImported();
    DenyImportedBinds();
    NoCapabilities(program, program[1].body[0]);
    NoCapabilities(program, program[1].body[1]);
    assert HasPositiveStored(program, program[1].body);
  }

  lemma DenyImportedBinds()
    ensures var program := DenyImported();
      && RangeRestricted(program[0]) && RangeRestricted(program[1])
      && Vars(program[1].body[1].atom.Args()) <= BoundBy(program[1].body, 1)
  {
    var program, x := DenyImported(), Variable("X");
    var body := program[1].body;
    OneArgument("b", x, map[]);
    OneArgument("b", Symbol("a"), map[]);
    assert BoundBy(body, 0) == {} && BoundBy(body, 1) == {"X"} && BoundBy(body, 2) == {"X"};
    assert NegatedVars(body, 0) == {} && NegatedVars(body, 1) == {} && NegatedVars(body, 2) == {"X"};
    assert BoundBy(program[0].body, 0) == {} && NegatedVars(program[0].body, 0) == {};
  }

  lemma NoCapabilities(program: seq<Statement>, lit: Literal)
    requires forall i :: 0 <= i < |program| ==> program[i].Clause?
    ensures !IsCapability(program, lit)
  {
  }

  lemma EarlyImport(ctx: Context)
    requires ctx.program == DenyImported()
    ensures Plain("r", Symbol("a")) in Session(ctx, [Import([SaidQ()]), Run])
  {
    hide Fires, Stage, Next;
    var facts := Elements([SaidQ()]);
    assert SaidQ() in [SaidQ()];
    SaidFires(ctx, facts);
    assert Plain("r", Symbol("a")) in Next(ctx, facts) by {
      FiredIsNext(ctx, facts, 1, map["X" := Symbol("a")], Plain("r", Symbol("a")));
    }
    StageStep(ctx, facts, 0);
    StageGrows(ctx, facts, 1, 64);
    assert [Import([SaidQ()]), Run] == [] + [Import([SaidQ()])] + [Run];
    SessionSnoc(ctx, [], Import([SaidQ()]));
    SessionSnoc(ctx, [] + [Import([SaidQ()])], Run);
    assert Session(ctx, []) + facts == facts;
  }

  lemma FiredIsNext(ctx: Context, facts: iset<Atom>, i: nat, b: Bindings, a: Atom)
    requires Fires(ctx, facts, i, b, a)
    ensures a in Next(ctx, facts)
  {
  }

  lemma SaidFires(ctx: Context, facts: iset<Atom>)
    requires ctx.program == DenyImported() && facts == iset{SaidQ()}
    ensures Fires(ctx, facts, 1, map["X" := Symbol("a")], Plain("r", Symbol("a")))
  {
    var a, x := Symbol("a"), Variable("X");
    var m: Bindings := map["X" := a];
    var body := ctx.program[1].body;
    OneArgument("r", x, m);
    OneArgument("b", x, m);
    assert Inst([x], m) == [a];
    ReachesUnfold(facts, "k", "k", "q", ctx.now, 0, DEFAULT_BOUND);
    assert SupportedBy(ctx.now, facts, body[0].atom, SaidQ(), m);
    assert BoundBy(body, 0) == {} && BoundBy(body, 1) == {"X"} && BoundBy(body, 2) == {"X"};
    assert Restrict(m, {}) == map[] && Restrict(m, {"X"}) == m;
    assert LiteralHolds(ctx, facts, body, 0, m);
    assert LiteralHolds(ctx, facts, body, 1, m);
  }

  lemma LateImport(ctx: Context)
    requires ctx.program == DenyImported()
    ensures Plain("r", Symbol("a")) !in Session(ctx, [Run, Import([SaidQ()]), Run])
  {
    hide Fires, Stage, FiresOver, Base, Session;
    var ops := [Run, Import([SaidQ()]), Run];
    DenyImportedIsSemiPositive();
    assert FittingImports(ctx, ops);
    SteadySession(ctx, ops);
    var facts := Imported(ops) + iset{Plain("b", Symbol("a"))};
    forall i: nat, b, f | FiresOver(ctx, Base(ctx), facts, i, b, f)
      ensures f in facts
    {
      OnlyB(ctx, facts, i, b, f);
    }
    assert ClosedOver(ctx, Base(ctx), facts);
    assert Imported(ops) <= facts;
    LeastOverWithin(ctx, Imported(ops), facts);
  }

  lemma LeastOverWithin(ctx: Context, start: iset<Atom>, facts: iset<Atom>)
    requires start <= facts && ClosedOver(ctx, Base(ctx), facts)
    ensures LeastOver(ctx, start) <= facts
  {
  }

  lemma OnlyB(ctx: Context, facts: iset<Atom>, i: nat, b: Bindings, f: Atom)
    requires ctx.program == DenyImported() && forall a :: a in facts && a.Says? ==> a == SaidQ()
    requires FiresOver(ctx, Base(ctx), facts, i, b, f)
    ensures f == Plain("b", Symbol("a"))
  {
    hide Base, LiteralHolds, Absent;
    OneArgument("b", Symbol("a"), b);
    if i == 1 {
      assert HoldsOver(ctx, Base(ctx), facts, ctx.program[1].body, 0, b);
      SaidBinds(ctx, facts, b);
      DeniedB(ctx, facts, b);
    }
  }

  lemma SaidBinds(ctx: Context, facts: iset<Atom>, b: Bindings)
    requires ctx.program == DenyImported() && forall a :: a in facts && a.Says? ==> a == SaidQ()
    requires LiteralHolds(ctx, facts, ctx.program[1].body, 0, b)
    ensures InstTerm(Variable("X"), b) == Symbol("a")
  {
    var pattern := ctx.program[1].body[0].atom;
    var f :| SupportedBy(ctx.now, facts, pattern, f, b);
    assert Inst(pattern.terms, b)[0] == f.Args()[0];
  }

  lemma DeniedB(ctx: Context, facts: iset<Atom>, b: Bindings)
    requires ctx.program == DenyImported() && InstTerm(Variable("X"), b) == Symbol("a")
    ensures !HoldsOver(ctx, Base(ctx), facts, ctx.program[1].body, 1, b)
  {
    hide Base;
    OneArgument("b", Variable("X"), b);
    OneArgument("b", Symbol("a"), map[]);
    BaseHas(ctx, 0, Plain("b", Symbol("a")));
  }

  /** The answers of a readable certificate. */
  function AnswersOf(cbor: bytes): seq<Atom> {
    var c := ReadCertificate(cbor);
    if c.None? then [] else c.value.answers
  }

  ghost function ImportOps(imports: seq<bytes>): seq<Op> {
    seq(|imports|, i requires 0 <= i < |imports| => Import(AnswersOf(imports[i])))
  }

  /** The operations of one daemon run: fixpoint, all imports, fixpoint. */
  ghost function DaemonOps(imports: seq<bytes>): seq<Op> {
    [Run] + ImportOps(imports) + [Run]
  }

  ghost predicate PlainImports(imports: seq<bytes>) {
    forall i, a :: 0 <= i < |imports| && a in AnswersOf(imports[i]) ==> PlainName(a)
  }

  /** Running before the imports makes no difference: fixpoint, imports, fixpoint is imports, fixpoint. */
  lemma ImportingFirst(ctx: Context, imports: seq<bytes>)
    requires Positive(ctx.program)
    requires Closed(ctx, Session(ctx, DaemonOps(imports))) && Closed(ctx, Session(ctx, ImportOps(imports) + [Run]))
    ensures Session(ctx, DaemonOps(imports)) == Session(ctx, ImportOps(imports) + [Run])
  {
    hide AnswersOf;
    var ops, other := DaemonOps(imports), ImportOps(imports) + [Run];
    assert ops == [Run] + other;
    assert forall op: Op :: op.Import? ==> (op in ops <==> op in other);
    Confluence(ctx, ops, other);
  }

  method AtomsOf(facts: seq<Fact>) returns (atoms: seq<Atom>)
    ensures |atoms| == |facts| && forall i :: 0 <= i < |facts| ==> atoms[i] == facts[i].atom
    ensures forall a :: a in atoms <==> Listed(facts, a)
  {
    atoms := [];
    var i := 0;
    while i < |facts|
      invariant 0 <= i <= |facts| == |facts|
      invariant |atoms| == i && forall k :: 0 <= k < i ==> atoms[k] == facts[k].atom
    {
      atoms := atoms + [facts[i].atom];
      i := i + 1;
    }
  }

  /**
   * etb_daemon_run_local_with_imports, from the parsed program and the bytes of the imported
   * certificates: the emitted answers are exactly those of the session, and of the least model once
   * that is reached.
   */
  method RunLocalWithImports(program: seq<Statement>, now: nat, oracle: Oracle, imports: seq<bytes>, queryText: string)
    returns (ok: bool, cbor: bytes, answers: seq<Atom>, engine: Engine)
    requires GroundOracle(oracle) && PlainHeads(program) && PlainImports(imports)
    ensures fresh(engine) && engine.Valid() && engine.Ctx() == Context(program, now, oracle)
    ensures ok ==> ParseText(queryText).Some? && forall i :: 0 <= i < |imports| ==> ReadCertificate(imports[i]).Some?
    ensures ok ==> engine.Db() == Session(engine.Ctx(), DaemonOps(imports))
    ensures ok ==> cbor == CertificateBytes(ParseText(queryText).value, answers, NodeDigests(engine.trace.nodes))
    ensures ok ==> forall a :: a in answers <==> Answer(engine.Ctx(), engine.Db(), ParseText(queryText).value, a)
    ensures ok && Positive(program) && Closed(engine.Ctx(), engine.Db()) ==>
      engine.Db() == LeastModel(engine.Ctx(), Imported(DaemonOps(imports)))
    ensures ok && SemiPositive(program) && FittingImports(engine.Ctx(), DaemonOps(imports)) ==>
      Closed(engine.Ctx(), engine.Db()) ==> engine.Db() == LeastOver(engine.Ctx(), Imported(DaemonOps(imports)))
  {
    hide Engine.Valid, Session, Closed, Positive, LeastModel, Imported, ParseText, ReadCertificate, CertificateBytes,
      Answer,
      NodeDigests, Fits, Body, RootOf, DaemonOps, PlainImports, SemiPositive, LeastOver, FittingImports, Validated;
    engine := new Engine(program, now, oracle);
    cbor, answers := [], [];
    ghost var ctx := engine.Ctx();
    ok := RunAndImport(engine, imports);
    if !ok {
      return;
    }
    if Positive(program) && Closed(ctx, engine.Db()) {
      SessionSettles(ctx, DaemonOps(imports));
    }
    if SemiPositive(program) && FittingImports(ctx, DaemonOps(imports)) && Closed(ctx, engine.Db()) {
      DaemonRunsFirst(imports);
      SteadySettles(ctx, DaemonOps(imports));
    }
    var goal := ParseAtomText(queryText);
    if goal.None? {
      return false, cbor, answers, engine;
    }
    var facts, root;
    ok, facts := engine.Query(goal.value);
    if !ok {
      return;
    }
    answers := AtomsOf(facts);
    var digests := DigestNodes(engine.trace.nodes);
    ok, cbor, root := BuildCertificate(goal.value, answers, digests);
  }

  lemma DaemonRunsFirst(imports: seq<bytes>)
    ensures RunsFirst(DaemonOps(imports)) && DaemonOps(imports) != []
  {
  }

  /** The session part of the run (source lines 31-54). */
  method RunAndImport(engine: Engine, imports: seq<bytes>) returns (ok: bool)
    requires engine.Valid() && engine.Db() == iset{} && PlainImports(imports)
    modifies engine`imports, engine.relations, engine.trace
    ensures engine.Valid()
    ensures ok ==> forall i :: 0 <= i < |imports| ==> ReadCertificate(imports[i]).Some?
    ensures ok ==> engine.Db() == Session(engine.Ctx(), DaemonOps(imports)) && Validated(engine.program)
  {
    hide Engine.Valid, ReadCertificate, After, Session, AnswersOf, Elements, AtSomeStage, Imported, CallsSucceed,
      LastPassIdle, Closed, Validated, AdapterFails, Stage, ImportNode, PlainImports;
    ghost var ctx := engine.Ctx();
    ghost var ops := [Run];
    ghost var rested;
    ok, rested := engine.RunFixpoint();
    if !ok {
      return;
    }
    FirstRun(ctx);
    var i := 0;
    while i < |imports|
      invariant 0 <= i <= |imports|
      invariant engine.Valid()
      invariant forall k :: 0 <= k < i ==> ReadCertificate(imports[k]).Some?
      invariant ops == [Run] + seq(i, k requires 0 <= k < i => Import(AnswersOf(imports[k])))
      invariant engine.Db() == Session(ctx, ops)
    {
      var c := ReadBytesOf(imports[i]);
      if c.None? {
        return false;
      }
      PlainAnswers(imports, i);
      ok := engine.ImportAnswers(c.value.answers, c.value.root);
      if !ok {
        return;
      }
      ImportStepIs(ctx, ops, c.value.answers);
      ops := ops + [Import(c.value.answers)];
      i := i + 1;
    }
    ok, rested := engine.RunFixpoint();
    RunStepIs(ctx, ops);
    assert ops + [Run] == DaemonOps(imports);
  }

  lemma PlainAnswers(imports: seq<bytes>, i: nat)
    requires PlainImports(imports) && i < |imports| && ReadCertificate(imports[i]).Some?
    ensures var answers := ReadCertificate(imports[i]).value.answers;
      AnswersOf(imports[i]) == answers && forall k :: 0 <= k < |answers| ==> PlainName(answers[k])
  {
    hide ReadCertificate;
    var answers := ReadCertificate(imports[i]).value.answers;
    assert forall k :: 0 <= k < |answers| ==> answers[k] in answers;
  }

  lemma FirstRun(ctx: Context)
    ensures Session(ctx, [Run]) == Stage(ctx, iset{}, 64)
  {
    SessionSnoc(ctx, [], Run);
    assert [] + [Run] == [Run];
  }

  lemma ImportStepIs(ctx: Context, ops: seq<Op>, answers: seq<Atom>)
    ensures Session(ctx, ops + [Import(answers)]) == Session(ctx, ops) + Elements(answers)
  {
    SessionSnoc(ctx, ops, Import(answers));
  }

  lemma RunStepIs(ctx: Context, ops: seq<Op>)
    ensures Session(ctx, ops + [Run]) == Stage(ctx, Session(ctx, ops), 64)
  {
    SessionSnoc(ctx, ops, Run);
  }

  lemma SessionSnoc(ctx: Context, ops: seq<Op>, op: Op)
    ensures Session(ctx, ops + [op]) == After(ctx, Session(ctx, ops), op)
  {
    assert (ops + [op])[..|ops|] == ops;
  }
}
