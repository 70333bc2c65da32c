/** Nodes that answer each other's queries, and the joint least model of what they may come to hold. */
module Network {
  import opened Syntax
  import opened Unify
  import opened Delegation
  import opened Semantics
  import opened Negation
  import opened EngineCore
  import opened Canon
  import opened Parser
  import opened RoundTrip
  import opened Reread
  import opened Cbor
  import opened Cert
  import opened Wire

  /** The prover subprocess: a proof for a certificate, and the check of one. */
  datatype Prover = Prover(prove: bytes -> Option<bytes>, verify: (bytes, bytes) -> bool)

  /**
   * A node: its name, program and adapters; the routes pinned for it, those of its own principals,
   * those stored in its registry; what its seeds resolve; its prover.
   */
  datatype Peer = Peer(id: string, program: seq<Statement>, oracle: Oracle, pinned: seq<Route>, local: seq<Route>,
                       stored: seq<Route>, seeds: string -> Option<string>, prover: Option<Prover>)

  /** Nodes by endpoint. */
  type Net = map<string, Peer>

  /** etb_registry_snapshot */
  function Snapshot(p: Peer): seq<Route> {
    WithRoutes(WithRoutes(p.stored, p.local), p.pinned)
  }

  /** etb_resolve_discovery_endpoint, into a buffer of 256 bytes. */
  function Resolve(p: Peer, principal: string): Option<string> {
    var pinned := Lookup(p.pinned, principal);
    var known := if pinned.Some? then pinned else Lookup(Snapshot(p), principal);
    if known.Some? then Some(Clipped(256, known.value))
    else
      var seeded := p.seeds(principal);
      if seeded.Some? then Some(Clipped(256, seeded.value)) else None
  }

  ghost predicate ValidRoutes(p: Peer) {
    DistinctPrincipals(p.pinned) && DistinctPrincipals(p.local) && DistinctPrincipals(p.stored)
  }

  /** Pinned routes win over the node's own, those over the registry, and all of them over the seeds. */
  lemma ResolveOrder(p: Peer, principal: string)
    requires ValidRoutes(p)
    ensures DistinctPrincipals(Snapshot(p))
    ensures Resolve(p, principal) ==
      if Lookup(p.pinned, principal).Some? then Some(Clipped(256, Lookup(p.pinned, principal).value))
      else if Lookup(p.local, principal).Some? then Some(Clipped(256, Lookup(p.local, principal).value))
      else if Lookup(p.stored, principal).Some? then Some(Clipped(256, Lookup(p.stored, principal).value))
      else if p.seeds(principal).Some? then Some(Clipped(256, p.seeds(principal).value))
      else None
  {
    hide Clipped, WithRoutes, Lookup, DistinctPrincipals;
    MergeOverlays(p.stored, p.local, principal);
    MergeOverlays(WithRoutes(p.stored, p.local), p.pinned, principal);
  }

  ghost function View(p: Peer, now: nat): Context {
    Context(p.program, now, p.oracle)
  }

  // ---------- Programs as the parser yields them ----------

  /** Names, terms and times that the parser can produce. */
  predicate Readable(a: Atom) {
    Shaped(a) && AllParsed(a.Args()) && PrintableWhen(a.when)
  }

  predicate ReadableClause(c: Statement)
    requires c.Clause?
  {
    Readable(c.head) && forall j :: 0 <= j < |c.body| ==> Readable(c.body[j].atom)
  }

  predicate ReadableProgram(program: seq<Statement>) {
    forall i :: 0 <= i < |program| && program[i].Clause? ==> ReadableClause(program[i])
  }

  ghost predicate ValidPeer(p: Peer) {
    GroundOracle(p.oracle) && PlainHeads(p.program) && ReadableProgram(p.program) && ValidRoutes(p)
  }

  ghost predicate ValidNet(net: Net) {
    forall e :: e in net ==> ValidPeer(net[e])
  }

  ghost predicate SemiPositiveNet(net: Net) {
    forall e :: e in net ==> SemiPositive(net[e].program)
  }

  // ---------- The joint least model ----------

  /** A fact held at an endpoint. */
  datatype Located = Located(at: string, atom: Atom)

  ghost function FactsAt(m: iset<Located>, e: string): iset<Atom> {
    iset a: Atom | Located(e, a) in m
  }

  ghost predicate Routed(net: Net, principal: string, e: string) {
    exists x :: x in net && Resolve(net[x], principal) == Some(e)
  }

  /** A ground `says` goal that a node answers to which somebody routes the goal's principal. */
  ghost predicate Transferred(net: Net, clock: nat, m: iset<Located>, a: Atom) {
    a.Says? && a.Ground() &&
    exists e :: e in net && Routed(net, a.principal, e) && Answer(View(net[e], clock), FactsAt(m, e), a, a)
  }

  /** Closed under the node's rules, delegations and adapters, its negations being read in its base facts. */
  ghost predicate PeerClosed(p: Peer, now: nat, facts: iset<Atom>) {
    ClosedOver(View(p, now), Base(View(p, now)), facts)
  }

  /** Closed at every node from the earliest clock on, and under transfer to every node. */
  ghost predicate JointModel(net: Net, clock: nat, m: iset<Located>) {
    && (forall e, now: nat :: e in net && clock <= now ==> PeerClosed(net[e], now, FactsAt(m, e)))
    && (forall e, a :: e in net && Transferred(net, clock, m, a) ==> Located(e, a) in m)
  }

  ghost predicate InEveryJointModel(net: Net, clock: nat, x: Located) {
    forall m :: JointModel(net, clock, m) ==> x in m
  }

  ghost function Joint(net: Net, clock: nat): iset<Located> {
    iset x: Located | InEveryJointModel(net, clock, x)
  }

  lemma AnswerMonotone(ctx: Context, facts: iset<Atom>, more: iset<Atom>, goal: Atom, a: Atom)
    requires facts <= more && Answer(ctx, facts, goal, a)
    ensures Answer(ctx, more, goal, a)
  {
    hide Holds;
    var m :| AnswerBy(ctx, facts, goal, m, a);
    HoldsMonotone(ctx, facts, more, Literal(false, goal), map[], m);
    assert AnswerBy(ctx, more, goal, m, a);
  }

  lemma FactsAtMonotone(m: iset<Located>, n: iset<Located>, e: string)
    requires m <= n
    ensures FactsAt(m, e) <= FactsAt(n, e)
  {
  }

  lemma TransferredMonotone(net: Net, clock: nat, m: iset<Located>, n: iset<Located>, a: Atom)
    requires m <= n && Transferred(net, clock, m, a)
    ensures Transferred(net, clock, n, a)
  {
    hide Answer, Routed, FactsAt;
    var e :| e in net && Routed(net, a.principal, e) && Answer(View(net[e], clock), FactsAt(m, e), a, a);
    FactsAtMonotone(m, n, e);
    AnswerMonotone(View(net[e], clock), FactsAt(m, e), FactsAt(n, e), a, a);
  }

  /** The joint least model is a joint model. */
  lemma JointIsModel(net: Net, clock: nat)
    ensures JointModel(net, clock, Joint(net, clock))
  {
    hide FiresOver, Base, Transferred;
    var least := Joint(net, clock);
    forall e, now: nat | e in net && clock <= now
      ensures PeerClosed(net[e], now, FactsAt(least, e))
    {
      JointPeerClosed(net, clock, e, now);
    }
    forall e, a | e in net && Transferred(net, clock, least, a)
      ensures Located(e, a) in least
    {
      forall m | JointModel(net, clock, m)
        ensures Located(e, a) in m
      {
        assert least <= m;
        TransferredMonotone(net, clock, least, m, a);
      }
    }
  }

  lemma JointPeerClosed(net: Net, clock: nat, e: string, now: nat)
    requires e in net && clock <= now
    ensures PeerClosed(net[e], now, FactsAt(Joint(net, clock), e))
  {
    hide FiresOver, Base, Transferred;
    var least, ctx := Joint(net, clock), View(net[e], now);
    forall i: nat, b, a | FiresOver(ctx, Base(ctx), FactsAt(least, e), i, b, a)
      ensures Located(e, a) in least
    {
      forall m | JointModel(net, clock, m)
        ensures Located(e, a) in m
      {
        assert least <= m;
        FactsAtMonotone(least, m, e);
        assert PeerClosed(net[e], now, FactsAt(m, e));
        FiresOverMonotone(ctx, Base(ctx), FactsAt(least, e), FactsAt(m, e), i, b, a);
        assert a in FactsAt(m, e);
      }
    }
  }

  // ---------- Later clocks derive nothing more ----------

  lemma HoldsEarlier(ctx: Context, earlier: nat, facts: iset<Atom>, lit: Literal, b: Bindings, m: Bindings)
    requires earlier <= ctx.now && !lit.negated && Holds(ctx, facts, lit, b, m)
    ensures Holds(ctx.(now := earlier), facts, lit, b, m)
  {
    if !IsCapability(ctx.program, lit) {
      var f :| SupportedBy(ctx.now, facts, lit.atom, f, m);
      if lit.atom.Says? {
        AllowsMonotone(facts, facts, f.principal, lit.atom.principal, f.pred, ctx.now, earlier);
      }
      assert SupportedBy(earlier, facts, lit.atom, f, m);
    }
  }

  /** No stated fact of a negated predicate expires. */
  ghost predicate LastingDenials(program: seq<Statement>) {
    forall i :: 0 <= i < |program| && program[i].Clause? && program[i].body == [] ==>
      NegatedSomewhere(program, program[i].head) ==> !program[i].head.when.ExpiresAt?
  }

  lemma AbsentEarlier(ctx: Context, earlier: nat, c: nat, l: nat, b: Bindings)
    requires Validated(ctx.program) && LastingDenials(ctx.program) && NegatedAt(ctx.program, c, l)
    requires Absent(ctx.now, Base(ctx), ctx.program[c].body[l].atom, b)
    ensures Absent(earlier, Base(ctx), ctx.program[c].body[l].atom, b)
  {
    var pattern := ctx.program[c].body[l].atom;
    assert ClauseValid(ctx.program, ctx.program[c]);
    forall f | f in Base(ctx) && SameShape(pattern, f, false)
      ensures ValidNow(ctx.now, f)
    {
      var i: nat :| StatedAt(ctx.program, i, f);
      assert SamePredicate(pattern, ctx.program[i].head);
    }
  }

  lemma FiresEarlier(ctx: Context, earlier: nat, facts: iset<Atom>, i: nat, b: Bindings, a: Atom)
    requires earlier <= ctx.now && Validated(ctx.program) && LastingDenials(ctx.program)
    requires FiresOver(ctx, Base(ctx), facts, i, b, a)
    ensures FiresOver(ctx.(now := earlier), Base(ctx), facts, i, b, a)
  {
    hide Holds, Absent, Base;
    var body := ctx.program[i].body;
    var was := ctx.(now := earlier);
    forall j | 0 <= j < |body|
      ensures HoldsOver(was, Base(ctx), facts, body, j, b)
    {
      assert HoldsOver(ctx, Base(ctx), facts, body, j, b);
      if body[j].negated {
        AbsentEarlier(ctx, earlier, i, j, b);
      } else {
        HoldsEarlier(ctx, earlier, facts, body[j], Restrict(b, BoundBy(body, j)), b);
      }
    }
  }

  /** Unless what is denied expires, closure at the earliest clock is closure from then on. */
  lemma LaterClocksAddNothing(p: Peer, clock: nat, now: nat, facts: iset<Atom>)
    requires clock <= now && Validated(p.program) && LastingDenials(p.program) && PeerClosed(p, clock, facts)
    ensures PeerClosed(p, now, facts)
  {
    hide FiresOver, Base, Validated, LastingDenials;
    var ctx := View(p, now);
    assert ctx.(now := clock) == View(p, clock);
    SameBase(View(p, clock), ctx);
    forall i: nat, b, a | FiresOver(ctx, Base(ctx), facts, i, b, a)
      ensures a in facts
    {
      FiresEarlier(ctx, clock, facts, i, b, a);
    }
  }

  lemma SameBase(ctx: Context, other: Context)
    requires ctx.program == other.program
    ensures Base(ctx) == Base(other)
  {
  }

  /** b(a) @expires 5. q(a). r(a) :- q(a), not b(a). */
  function TemporaryDenial(): seq<Statement> {
    var a := Symbol("a");
    [ Clause(Expiring(), []), Clause(Plain("q", a), []),
      Clause(Plain("r", a), [Literal(false, Plain("q", a)), Literal(true, Plain("b", a))]) ]
  }

  function Expiring(): Atom {
    Predicate("b", [Symbol("a")], ExpiresAt(5))
  }

  /** When what is denied expires, a set that is closed up to then is not closed any more. */
  lemma ExpiredDenialAdds(p: Peer)
    requires p.program == TemporaryDenial()
    ensures var facts := iset{Expiring(), Plain("q", Symbol("a"))};
      PeerClosed(p, 5, facts) && !PeerClosed(p, 6, facts)
  {
    hide FiresOver;
    var facts := iset{Expiring(), Plain("q", Symbol("a"))};
    forall i: nat, b, f | FiresOver(View(p, 5), Base(View(p, 5)), facts, i, b, f)
      ensures f in facts
    {
      StillDenied(p, facts, i, b, f);
    }
    NoLongerDenied(p, facts);
  }

  lemma StillDenied(p: Peer, facts: iset<Atom>, i: nat, b: Bindings, f: Atom)
    requires p.program == TemporaryDenial() && FiresOver(View(p, 5), Base(View(p, 5)), facts, i, b, f)
    ensures f == Expiring() || f == Plain("q", Symbol("a"))
  {
    hide Base, LiteralHolds;
    var a := Symbol("a");
    OneArgument("q", a, b);
    OneArgument("b", a, b);
    DeniedYet(p, facts, b);
  }

  lemma DeniedYet(p: Peer, facts: iset<Atom>, b: Bindings)
    requires p.program == TemporaryDenial()
    ensures !HoldsOver(View(p, 5), Base(View(p, 5)), facts, p.program[2].body, 1, b)
  {
    hide Base;
    OneArgument("b", Symbol("a"), b);
    OneArgument("b", Symbol("a"), map[]);
    BaseHas(View(p, 5), 0, Expiring());
  }

  lemma NoLongerDenied(p: Peer, facts: iset<Atom>)
    requires p.program == TemporaryDenial() && Plain("q", Symbol("a")) in facts
    ensures FiresOver(View(p, 6), Base(View(p, 6)), facts, 2, map[], Plain("r", Symbol("a")))
  {
    var ctx, a, body := View(p, 6), Symbol("a"), p.program[2].body;
    OneArgument("r", a, map[]);
    OneArgument("q", a, map[]);
    OneArgument("b", a, map[]);
    assert BoundBy(body, 0) == {} && BoundBy(body, 1) == {} && BoundBy(body, 2) == {};
    assert SupportedBy(6, facts, Plain("q", a), Plain("q", a), map[]);
    assert LiteralHolds(ctx, facts, body, 0, map[]);
    forall f | f in Base(ctx) && f.Predicate? && f.pred == "b"
      ensures !ValidNow(6, f)
    {
      var i: nat :| StatedAt(p.program, i, f);
      assert i == 0;
    }
  }

  lemma AnswerEarlier(ctx: Context, earlier: nat, facts: iset<Atom>, goal: Atom, a: Atom)
    requires earlier <= ctx.now && Answer(ctx, facts, goal, a)
    ensures Answer(ctx.(now := earlier), facts, goal, a)
  {
    hide Holds;
    var m :| AnswerBy(ctx, facts, goal, m, a);
    HoldsEarlier(ctx, earlier, facts, Literal(false, goal), map[], m);
    assert AnswerBy(ctx.(now := earlier), facts, goal, m, a);
  }

  /** An engine that starts inside the joint model and runs at a later clock stays inside. */
  lemma StagesStayJoint(net: Net, clock: nat, e: string, now: nat, start: iset<Atom>, facts: iset<Atom>)
    requires e in net && clock <= now && Validated(net[e].program) && SemiPositive(net[e].program)
    requires Steady(View(net[e], now), start) && start <= FactsAt(Joint(net, clock), e)
    requires AtSomeStage(View(net[e], now), start, facts)
    ensures facts <= FactsAt(Joint(net, clock), e) && Steady(View(net[e], now), facts)
  {
    hide Joint, Stage, ClosedOver, Base, FactsAt, SemiPositive, Validated, Steady;
    JointPeerClosed(net, clock, e, now);
    var n: nat :| n <= 64 && facts == Stage(View(net[e], now), start, n);
    StageInClosed(View(net[e], now), start, n, FactsAt(Joint(net, clock), e));
    StagesStaySteady(View(net[e], now), start, n);
  }

  // ---------- Ground goals are their own answers ----------

  lemma GroundAnswer(ctx: Context, facts: iset<Atom>, goal: Atom, a: Atom)
    requires goal.Ground() && Answer(ctx, facts, goal, a)
    ensures a == goal
  {
    var m :| AnswerBy(ctx, facts, goal, m, a);
    assert Inst(goal.Args(), m) == goal.Args();
  }

  /** What a node says on request is known everywhere in the joint model. */
  lemma AnswerTransfers(net: Net, clock: nat, e: string, now: nat, facts: iset<Atom>, goal: Atom, a: Atom)
    requires e in net && clock <= now && facts <= FactsAt(Joint(net, clock), e)
    requires goal.Says? && goal.Ground() && Routed(net, goal.principal, e)
    requires Answer(View(net[e], now), facts, goal, a)
    ensures a == goal && forall x :: x in net ==> Located(x, a) in Joint(net, clock)
  {
    hide Answer, Joint, Routed;
    GroundAnswer(View(net[e], now), facts, goal, a);
    AnswerMonotone(View(net[e], now), facts, FactsAt(Joint(net, clock), e), goal, goal);
    AnswerEarlier(View(net[e], now), clock, FactsAt(Joint(net, clock), e), goal, goal);
    assert View(net[e], now).(now := clock) == View(net[e], clock);
    JointIsModel(net, clock);
    assert Transferred(net, clock, Joint(net, clock), goal);
  }

  // ---------- Honest bundles ----------

  /** A `says` fact that every node holds in the joint model. */
  ghost predicate JointlySaid(net: Net, clock: nat, a: Atom) {
    a.Says? && a.Ground() && forall x :: x in net ==> Located(x, a) in Joint(net, clock)
  }

  /** The bundle was asked for with a text that reads as `g`, and its certificate says `g` and nothing else. */
  ghost predicate HonestFor(net: Net, clock: nat, b: Bundle, g: Atom) {
    var c := ReadCertificate(b.cert);
    && JointlySaid(net, clock, g) && ParseText(b.query) == Some(g)
    && c.Some? && c.value.answers != [] && forall i :: 0 <= i < |c.value.answers| ==> c.value.answers[i] == g
  }

  /** So it is if its certificate can be read at all. */
  ghost predicate Honest(net: Net, clock: nat, b: Bundle) {
    ReadCertificate(b.cert).Some? ==> exists g :: HonestFor(net, clock, b, g)
  }

  ghost predicate AllHonest(net: Net, clock: nat, bs: seq<Bundle>) {
    forall i :: 0 <= i < |bs| ==> Honest(net, clock, bs[i])
  }

  /**
   * A bundle whose certificate lists only the goal its query reads as is honest. A goal that is not
   * printable must have no readable text, and then the certificate cannot be read either.
   */
  lemma OwnIsHonest(net: Net, clock: nat, b: Bundle, goal: Atom, answers: seq<Atom>, digests: seq<string>)
    requires ParseText(b.query) == Some(goal)
    requires ParseText(AtomText(goal)) == (if Printable(goal) then Some(goal) else None)
    requires Printable(goal) ==>
      JointlySaid(net, clock, goal) && answers != [] && forall i :: 0 <= i < |answers| ==> answers[i] == goal
    requires Fits(goal, answers, digests) && b.cert == CertificateBytes(goal, answers, digests)
    ensures Honest(net, clock, b)
  {
    hide ParseText, ParsedAll, AtomText, Printable, CertificateBytes, ReadCertificate, Fits, Body, RootOf, JointlySaid;
    CertificateReads(goal, answers, digests);
    if Printable(goal) {
      ParsedAllIs(AtomTexts(answers), answers);
      assert HonestFor(net, clock, b, goal);
    }
  }

  // ---------- Goals ----------

  /** The texts of all body atoms of the program with arguments from `ts`. */
  function GoalTexts(program: seq<Statement>, ts: set<Term>): set<string> {
    set i, j, l | 0 <= i < |program| && program[i].Clause? && 0 <= j < |program[i].body| &&
                  l in TermLists(ts, |program[i].body[j].atom.Args()|) ::
      AtomText(WithArgs(program[i].body[j].atom, l))
  }

  ghost predicate Over(ts: set<Term>, l: seq<Term>) {
    forall i :: 0 <= i < |l| ==> l[i] in ts
  }

  ghost predicate HeadsOver(program: seq<Statement>, ts: set<Term>) {
    forall i :: 0 <= i < |program| && program[i].Clause? ==> Over(ts, program[i].head.Args())
  }

  ghost predicate BodiesOver(program: seq<Statement>, ts: set<Term>) {
    forall i, j :: 0 <= i < |program| && program[i].Clause? && 0 <= j < |program[i].body| ==>
      Over(ts, program[i].body[j].atom.Args())
  }

  /** All terms of a program's clauses and of one goal. */
  function TermsOf(program: seq<Statement>, goal: Atom): set<Term> {
    (set i, k | 0 <= i < |program| && program[i].Clause? && 0 <= k < |program[i].head.Args()| ::
       program[i].head.Args()[k]) +
    (set i, j, k | 0 <= i < |program| && program[i].Clause? && 0 <= j < |program[i].body| &&
                   0 <= k < |program[i].body[j].atom.Args()| :: program[i].body[j].atom.Args()[k]) +
    (set k | 0 <= k < |goal.Args()| :: goal.Args()[k])
  }

  lemma TermsOfScope(program: seq<Statement>, goal: Atom)
    requires ReadableProgram(program) && AllParsed(goal.Args())
    ensures HeadsOver(program, TermsOf(program, goal)) && BodiesOver(program, TermsOf(program, goal))
    ensures Over(TermsOf(program, goal), goal.Args())
    ensures forall t :: t in TermsOf(program, goal) ==> ParsedTerm(t)
  {
    hide ParsedTerm, Shaped;
    var ts := TermsOf(program, goal);
    forall i | 0 <= i < |program| && program[i].Clause?
      ensures Over(ts, program[i].head.Args())
      ensures forall j :: 0 <= j < |program[i].body| ==> Over(ts, program[i].body[j].atom.Args())
      ensures ReadableClause(program[i])
    {
    }
  }

  ghost predicate ValuesIn(b: Bindings, ts: set<Term>) {
    forall x :: x in b ==> b[x] in ts
  }

  /** Unification binds only terms of the two atoms. */
  lemma {:induction false} UnifyValues(b: Bindings, ps: seq<Term>, cs: seq<Term>, n: nat, ts: set<Term>)
    requires n <= |ps| == |cs| && Over(ts, ps) && Over(ts, cs) && ValuesIn(b, ts)
    ensures UnifyUpTo(b, ps, cs, n).Some? ==> ValuesIn(UnifyUpTo(b, ps, cs, n).value, ts)
  {
    if n > 0 {
      UnifyValues(b, ps, cs, n - 1, ts);
    }
  }

  /** A goal's dependency is again one of the finitely many goals over the same terms. */
  lemma DependencyIsGoal(program: seq<Statement>, ts: set<Term>, c: nat, j: nat, goal: Atom, b: Bindings)
    requires c < |program| && program[c].Clause? && j < |program[c].body|
    requires HeadsOver(program, ts) && BodiesOver(program, ts) && Over(ts, goal.Args())
    requires UnifyAtoms(map[], program[c].head, goal, false) == Some(b)
    ensures var a := InstAtom(program[c].body[j].atom, b);
      && Over(ts, a.Args()) && AtomText(a) in GoalTexts(program, ts)
  {
    hide AtomText;
    var head := program[c].head;
    UnifyValues(map[], head.Args(), goal.Args(), |head.Args()|, ts);
    var atom := program[c].body[j].atom;
    var a := InstAtom(atom, b);
    assert Over(ts, atom.Args());
    forall i | 0 <= i < |a.Args()|
      ensures a.Args()[i] in ts
    {
    }
    assert a == WithArgs(atom, a.Args());
    assert a.Args() in TermLists(ts, |atom.Args()|);
  }
}
