# Verification model of the stratified-Datalog engine and its distributed queries

The system evaluates Datalog programs extended with `principal says atom`, delegation by
`speaks_for`, expiry annotations, negation and external adapters. Evaluation is naive and
bottom-up and logs a derivation trace. A node answers a query by exploring goals backwards, asks
other nodes for what their principals say, imports the answers from their certificates and runs
the fixpoint again. This project models that logic in Dafny and proves what it computes.

The files follow the program. `Syntax`, `Unify`, `Tables`, `Delegation`, `Trace`, `Strata` and
`Engine` are the engine; its classes keep the in-place relations and log, and their contracts are
stated against `Semantics` (solutions of a body, stages, least models). `Negation` says what
evaluation makes of negation, `Sessions` covers interleaved imports and runs and the local daemon,
`Rest` whether 64 passes are enough. `Canon`, `Parser`, `RoundTrip`, `Reread`, `AttributeLists` and
`TraceText` are text: what is printed, what is read, what printed text is read as when it is not
read back, how delegations are written, and how the log is listed and digested. `Cbor`, `Sha256`,
`Cert` and `Wire` are the binary codecs, `Sha256Standard` and `Sha256Example` tie the hash to its
standard. `Network` defines the joint least model of a set of nodes,
`Distributed` the query resolution over it, including the certificates and responses as bytes.

Main results:

- a run succeeds exactly when the program is valid and every adapter call is answered, and leaves
  exactly the facts with a derivation of height at most 64 (`Engine.RunFixpoint`); it leaves the
  least model once it is at rest (`SettledIsLeastModel`), which few enough instances of the clause
  heads guarantee beforehand (`FewInstancesRest`), while 64 is the exact limit for a chain of
  clauses (`ChainIsReached`); interleavings of imports and runs are confluent (`Confluence`,
  `SteadyConfluence`, `SmallConfluence`); the log is a proof (`ReplaySound`);
- the order of body literals matters only through what negations and adapter calls find bound
  (`OrderIrrelevant`, `RearrangedStages`);
- the stratum loop settles exactly when no cycle goes through negation, with least labels
  (`Strata.Relax`); as the labels are not used, negation is inflationary: `SettledIsPerfect` gives
  the programs for which the outcome is the perfect model all the same, and
  `EarlyNegationIsUnsupported`, `DenialAloneIsEarly` and `DenialFirstMisses` what each of its three
  conditions keeps out;
- delegation search is exact (`Delegation.Visit`), with bounds that are replaced, not minimised
  (`LastDepthRules`) and scopes that are prefixes (`TwoEdgesAllow`);
- what unification does without renaming apart, on all inputs (`UnifyIsTable`), and when that is
  unifiability (`UnifyMeetingExact`);
- distributed soundness for networks of semi-positive programs, completeness of the exploration,
  accountability and termination (`Distributed.ExecuteQuery`);
- round trips of atoms and certificates on their exact domains (`ReparseExact`,
  `CertificateExact`), with what is read outside them (`DelegationReads`, `RereadsOnce`,
  `CertificateReads`); round trips of bundles and responses; and the incremental SHA-256 against
  FIPS 180-4, its constants derived from roots of primes (`RoundConstantsAreRoots`) and one digest
  worked out (`HashAbc`).

Where code and documentation differ the code is followed. Facts the model keeps because the code
has them: at most 64 passes and then success; strata computed and dropped; a delegation depth
replaces the inherited bound, and bound 8 means nine edges; query answers carry the annotations of
the goal and not of the fact; `_` is an ordinary variable; variables print as text the parser
rejects unless a quoted predicate name in front of them opens a comment, negative integers print
as identifiers; a delegation never reads back as itself, and one whose quoted scope holds a comment
can read as another delegation; a certificate whose query has variables cannot be read back; a
missing route for a `says` dependency fails the query.

Parameters of the model: adapters are a pure function from name, arguments and mask to tuples or
failure, answering with ground tuples; the prover is a pair of functions; seeds resolve principals
by a function; the clock of each query is any time not before a common earliest one.
`Distributed` assumes of every node in the network: its negations are semi-positive, its program
holds names, terms and times as the parser yields them, and the principals in each of its route
lists are distinct.

## Model

| member | source | states |
|---|---|---|
| Unify.UnifyAtom | src/engine/unify.c:141-166 | the loop over argument pairs computes the pairwise unifier of the two atoms, and fails exactly when kinds, principals, names, arities or some pair disagree |
| Unify.UnifyExact | src/engine/unify.c:121-166 | matching a ground candidate succeeds if and only if some extension of the bindings makes the pattern equal to it, and then yields the least one, which binds just the pattern variables besides what was bound |
| Unify.UnifyIsTable | src/engine/unify.c:121-139 | on any two argument lists, variables on both sides included, unification succeeds if and only if one table of names that extends the bindings holds for every pattern variable the candidate opposite and for every candidate variable the constant opposite; it yields the least such table |
| Unify.UnifySound | src/engine/unify.c:121-139 | whatever the lists are, every substitution that respects the resulting bindings makes them equal |
| Unify.UnifyMeetingExact | src/engine/unify.c:121-139 | if variables that meet occur nowhere else, as when one list is ground or no variable is repeated, it succeeds if and only if some substitution makes both instances equal; its bindings do so, and every such substitution factors through them |
| Unify.IndependentUnify | src/engine/unify.c:141-166 | for atoms that besides share no variable: if and only if some instance of the one is an instance of the other |
| Unify.RepeatedVariableFails | src/engine/unify.c:121-139 | beyond that it can fail: p(X, X) and p(Y, a) have equal instances and are not unified |
| Tables.PlainKey | src/core/canon.c:113-123 | as long as no predicate name begins with two underscores, the key prefix tells says, speaks_for and plain atoms apart |
| Tables.KeyTells | src/core/canon.c:113-123 | for names without a slash two atoms have one key if and only if kind, principal, predicate and arity agree |
| Tables.RelationSet.KeyedIsFlat | src/engine/tables.c:46-65 | scanning the one relation found under a key sees exactly the stored facts with that key: the keyed index refines a flat fact set |
| Tables.RelationSet.ContainsFact | src/engine/eval.c:92-111 | the keyed lookup answers membership in the flat set |
| Tables.RelationSet.AddFact | src/engine/tables.c:67-108 | the flat set grows by exactly the one atom; an equal atom already stored keeps its trace id; one relation per key is kept |
| Delegation.ReachesUnfold | src/engine/delegation.c:13-58 | bounded reachability, defined by paths, satisfies the recursion the search follows |
| Delegation.Visit | src/engine/delegation.c:13-58 | the recursive search succeeds if and only if a path of unexpired edges whose scopes admit the predicate exists with each expanded position within its current bound; it terminates on cyclic graphs |
| Delegation.Check | src/engine/delegation.c:60-64 | the exported test is reachability from depth 0 with bound 8 |
| Delegation.DepthCap | src/engine/delegation.c:13-53 | every fact store has a finite cap on depths, the measure that makes the search end although an edge may raise its bound |
| Delegation.AllowsMonotone | src/engine/delegation.c:13-64 | permission grows with added facts and shrinks as the clock advances |
| Delegation.AllowsCompact | src/engine/delegation.c:13-64 | a permission rests on the finitely many edges of one path and survives the loss of all others |
| Delegation.ScopeIsPrefix | src/engine/delegation.c:6-11 | a scope admits exactly the predicates that begin with its text; no scope and the star admit all |
| Delegation.LiveUntilExpiry | src/engine/delegation.c:29-31 | an edge is usable up to and including its expiry time and never after; zero stands for no expiry |
| Delegation.TwoEdgesAllow | src/engine/delegation.c:6-64 | over two edges with one scope the first principal speaks for the last if and only if the predicate begins with the scope and the edges have not expired |
| Delegation.PrefixScopeInForce | src/engine/delegation.c:6-64 | an example: the scope appr lets approve through at the time of expiry, not audit, and nothing later |
| Delegation.LastDepthRules | src/engine/delegation.c:49-53 | the bound in force on a path is the depth of the last edge passed that has one, be it larger or smaller than the bound before |
| Delegation.UniformDepthHops | src/engine/delegation.c:13-64 | edges that all carry depth d compose to chains of at most d + 1 edges; with no depths set, the bound of 8 admits exactly chains of at most nine |
| Strata.HeadKeys | src/engine/strata.c:79-105 | the key list holds exactly the relation keys of the clause heads, each once |
| Strata.CheckClause | src/engine/strata.c:120-143 | the checks accept a clause if and only if every negation is of a plain non-capability predicate and positive literals bind all head and negated variables |
| Strata.RelaxLiteral | src/engine/strata.c:167-190 | one literal raises the head label just enough for its own dependency and reports whether it did |
| Strata.RelaxPass | src/engine/strata.c:149-191 | one pass, in place and in clause order, satisfies every dependency relative to the labels it started from, never overshoots a valid stratification, and changes something exactly when it says so |
| Strata.Relax | src/engine/strata.c:148-195 | the loop of key_count+4 passes ends with nothing changed if and only if no dependency cycle goes through a negated literal, and the labels are then the least valid stratification |
| Strata.StratifiedHasNoNegativeCycle | src/engine/strata.c:148-195 | a valid labelling rules out every cycle through negation |
| Strata.CountsStratify | src/engine/strata.c:148-195 | conversely, without such a cycle the number of relations each one depends on negatively is a valid labelling |
| Strata.PassCompletesOne | src/engine/strata.c:149-191 | while some label is short of the least stratification, a pass makes at least one more label final |
| Strata.Validate | src/engine/strata.c:69-210 | validation succeeds exactly for validated programs whether or not the labels settled; the flag and the labels mean what Relax states |
| Semantics.StageGround | src/engine/strata.c:112-146 | range restriction suffices: no stage over ground facts holds a fact with a variable, so the skip for non-ground heads is never taken |
| Sessions.SessionGround | src/engine/strata.c:112-146 | the same for every session of runs and ground imports |
| Semantics.PartialSolutionSnoc | src/engine/eval.c:401-424 | matching one more literal extends a solution of a body prefix to one of the longer prefix |
| Semantics.SolutionPrefix | src/engine/eval.c:401-424 | conversely, every solution of the whole body passes through a match of each literal in turn |
| Semantics.OrderIrrelevant | src/engine/eval.c:346-424 | two bodies with the same literals, in which each negation and each adapter call finds the same of its own variables bound, have the same solutions over ground facts |
| Semantics.PlainOrderIrrelevant | src/engine/eval.c:346-424 | permuting a block of positive non-capability literals is such a rearrangement, whatever stands in front of it and behind it, negations and adapter calls included |
| Semantics.RearrangedFires | src/engine/eval.c:346-424 | in programs that differ by such rearrangements each clause derives the same head instances from the same ground facts |
| Semantics.RearrangedStages | src/engine/eval.c:426-470 | and so every pass of a run leaves the same facts |
| Semantics.StageSettles | src/engine/eval.c:438-469 | once a pass adds nothing no later pass does |
| Semantics.StageInModel | src/engine/eval.c:426-470 | no stage of a negation-free program leaves any model of it |
| Semantics.LeastModelIsModel | src/engine/eval.c:426-470 | the intersection of all models is itself closed under the rules, delegations and adapters |
| Semantics.SettledIsLeastModel | src/engine/eval.c:426-470 | a closed stage of a negation-free program is its least model |
| Semantics.LeastModelIsLimit | src/engine/eval.c:426-470 | the least model is exactly the union of the stages: every fact of it has a derivation of finite height |
| TraceLog.Trace.Append | src/engine/trace.c:104-140 | the log grows by one node at the end, whose id is its position |
| TraceLog.ReplaysAppend | src/engine/eval.c:368-376 | a node justified by the log so far keeps the whole log replayable |
| TraceLog.IdsArePositions | src/engine/trace.c:104-140 | in a log that replays every id is a position and every premise id is smaller than its node id |
| TraceLog.KindsTell | src/engine/eval.c:368-373 | in a log that replays a fact node has no premises and is imported or stated by a bodiless clause, a rule node names a clause with a body, a capability node has no premises, a delegation node states a delegation; a node with premises is a rule or a delegation node |
| TraceLog.ReplaySound | src/engine/eval.c:346-399 | a log that replays is a proof: for a negation-free program every fact it asserts is in the least model over the imported facts |
| EngineCore.Engine.constructor | src/engine/eval.c:39-76 | an engine starts empty, with the capabilities its program declares |
| EngineCore.Engine.HandOver | src/engine/eval.c:118-148 | the loop marks an argument as known if and only if its instance is no variable; then that instance is handed over, and null otherwise |
| Semantics.ReplyAgrees | src/engine/eval.c:118-199 | every reply tuple that unifies with the literal agrees with what was handed over as known |
| EngineCore.Engine.TryCapability | src/engine/eval.c:113-205 | fails exactly when the adapter does; otherwise the log grows by one justified node, with its evidence, and the states by one, for each reply tuple that unifies, in the order of the reply, and no match of the literal is missed |
| Semantics.UsableByKind | src/engine/eval.c:78-90 | a fact may be used up to and including its expiry time; a literal without annotation takes any fact in force, an annotated one facts with the same annotation only |
| EngineCore.Engine.MatchNegated | src/engine/eval.c:222-264 | the state survives exactly when no usable stored fact unifies with the literal under the bindings so far |
| EngineCore.Engine.MatchStored | src/engine/eval.c:311-343 | exactly the matches of the literal with stored facts in force, each with a premise that names the fact |
| EngineCore.Engine.MatchSays | src/engine/eval.c:266-309 | exactly the matches with facts said by the principal or by a speaker whom delegation allows |
| EngineCore.Engine.MatchLiteral | src/engine/eval.c:207-344 | the states are sound and complete for the literal; it fails if and only if the literal is a declared capability whose adapter does not answer this very call |
| EngineCore.Engine.DeriveHead | src/engine/eval.c:350-399 | the head instance is ground; it is logged with its premises and listed unless it is stored already |
| EngineCore.Engine.EvaluateClauseBody | src/engine/eval.c:346-424 | appends only not yet stored instances of the head, each logged and justified, and all instances whose substitution extends the given bindings and satisfies the body; fails if and only if some partial solution of the body leads to an adapter call without an answer |
| EngineCore.Engine.DerivePass | src/engine/eval.c:442-456 | one sweep lists exactly the one-step consequences of the stored facts that are not stored, and fails if and only if it comes to an adapter call without an answer |
| EngineCore.Engine.StorePass | src/engine/eval.c:457-466 | the listed facts are added and the flag says whether there were any |
| EngineCore.Engine.RunPasses | src/engine/eval.c:438-469 | the loop leaves stage 64 over the facts it started from, also when it stops early; it ends with nothing changed if and only if the last pass added nothing, and then the facts are closed |
| EngineCore.Engine.RunFixpoint | src/engine/eval.c:426-470 | a run succeeds if and only if the program is valid and every adapter call of its passes is answered; it then leaves exactly the facts with a derivation of height at most 64 over the starting facts, a failed run some earlier stage, an invalid program the facts as they were |
| EngineCore.Engine.ImportAnswers | src/engine/eval.c:518-545 | stores the answers and logs each with the root digest as evidence, failing exactly when one of them is not ground, and then with at most the earlier ones stored |
| EngineCore.Engine.Query | src/engine/eval.c:472-516 | the answers are exactly the instances of the goal that hold, with the annotations of the goal, each carrying the id of the log node that supports it |
| Sessions.SessionBounds | src/runtime/daemon.c:31-54 | any interleaving of imports and runs keeps everything imported and stays within the least model of program plus imports |
| Sessions.SessionSettles | src/runtime/daemon.c:31-54 | an interleaving that comes to rest holds exactly that least model |
| Sessions.Confluence | src/runtime/daemon.c:31-54 | two interleavings of the same imports that come to rest hold the same facts |
| Sessions.ImportingFirst | src/runtime/daemon.c:31-54 | without negation, fixpoint, imports, fixpoint gives what imports, fixpoint gives |
| Sessions.SteadySession | src/runtime/daemon.c:31-54 | with semi-positive negation a session that begins with a fixpoint keeps everything imported, stores all base facts and none besides for negated predicates, and stays within the least set closed under the clauses with negations read in the base facts |
| Sessions.SteadySettles | src/runtime/daemon.c:31-54 | at rest it holds exactly that set |
| Sessions.SteadyConfluence | src/runtime/daemon.c:31-54 | two such sessions with the same imports that come to rest hold the same facts |
| Sessions.ImportBeforeRunDiffers | src/runtime/daemon.c:31-54 | there the first fixpoint is needed: a program for which importing before it derives a denied fact, and importing after it does not |
| Rest.FewFactsRest | src/engine/eval.c:430-471 | a run that can add at most n facts is at rest after n passes, negation or not |
| Rest.SmallModelIsReached | src/engine/eval.c:430-471 | the 64 passes reach the least model of a negation-free program if that adds at most 64 facts |
| Rest.FewInstancesRest | src/engine/eval.c:430-471 | known before the run: it ends at rest if the clause heads have at most 64 instances over the terms that heads, starting facts and adapter replies provide |
| Rest.SmallSessionRests | src/runtime/daemon.c:31-54 | under that bound every session that ends with a run is at rest |
| Rest.SmallConfluence | src/runtime/daemon.c:31-54 | and sessions with the same imports hold the same facts, with no condition on their outcome |
| Rest.ChainIsReached | src/engine/eval.c:438 | for the chain p(0), p(1) :- p(0) and so on, a run reaches the least model if and only if it has at most 64 clauses |
| Rest.LastLink | src/engine/eval.c:438 | with one clause more the run succeeds and lacks a fact of the least model |
| Sessions.RunLocalWithImports | src/runtime/daemon.c:7-96 | a successful run read every imported certificate, holds the facts of the session fixpoint-imports-fixpoint, and emits the certificate of exactly the answers to the query |
| Negation.BoundNegation | src/engine/eval.c:222-264 | with its variables bound beforehand a negated literal is decided by its ground instance |
| Negation.ReadyFires | src/engine/eval.c:346-424 | for semi-positive programs, over facts that hold all base facts and no others of a negated predicate, a clause fires exactly when it does with its negations read in the base facts |
| Negation.StagesStaySteady | src/engine/eval.c:426-470 | every run from no facts or from such facts leaves such facts |
| Negation.StageInClosed | src/engine/eval.c:426-470 | and no stage of it leaves a set that is closed with the negations read in the base facts |
| Negation.SettledIsPerfect | src/engine/eval.c:426-470 | a run from empty relations that comes to rest on a semi-positive program yields the perfect model although strata are not used |
| Negation.PositiveLeast | src/engine/eval.c:426-470 | for a program without negation the least set so defined is the least model |
| Negation.PerfectIsSupported | src/engine/eval.c:426-470 | that model is stable: reading the negations in the model itself instead of the base facts fires the same clauses |
| Negation.EarlyNegationIsUnsupported | src/engine/eval.c:433-470 | a validated program without a cycle through negation, for which a run stores both b(a) and r(a) where r needs b absent, and nothing in the result supports r(a) |
| Negation.DenialAloneIsEarly | src/engine/eval.c:222-264 | a clause of negations alone fires before the facts it denies are stored: its head is derived but is not in the perfect model |
| Negation.DenialFirstMisses | src/engine/eval.c:222-264 | a negated literal in front of the one that binds its variable asks that nothing match: a head in the perfect model is never derived |
| Canon.CanonicalText | src/core/canon.c:46-111 | the pieces appended to one buffer make up the text of the atom |
| Decimal.DecimalRoundTrip | src/core/canon.c:37-39 | decimal text of a non-negative integer reads back as that integer |
| Parser.Scanner.Next | src/core/parser.c:86-204 | the scanner yields the token the lexical rules give at its offset, and fails exactly on stray characters and open quotes |
| Parser.Scanner.AtomCore | src/core/parser.c:354-425 | the in-place parser of predicate, says and speaks_for atoms computes the grammar functions, state included |
| Parser.ParseAtomText | src/core/parser.c:610-633 | one atom, an optional full stop and nothing else, as the grammar functions define it |
| RoundTrip.PrintableReads | src/core/parser.c:610-633 | parsing the canonical text of a printable ground predicate or says atom gives the atom back |
| RoundTrip.VariablesDoNotRead | src/core/canon.c:33-34 | the canonical text of an atom with a variable is rejected by the parser if its names are printed as single tokens: identifiers, or digits for the predicate of a says atom |
| RoundTrip.ParserOutput | src/core/parser.c:296-319 | whatever text is read, the parser only returns terms of the readable kind, times below 2^63, identifiers as names, and quote-free says predicates and scopes |
| RoundTrip.IntegersSaturate | src/core/parser.c:173-187 | digits are read as their number up to 9223372036854775807 and as that number beyond |
| Parser.CharactersListed | src/core/parser.c:61-85 | the characters of names, capitals and blanks are those of the C locale, listed one by one |
| Reread.ReparseExact | src/core/parser.c:610-633 | the canonical text reads back as the same atom if and only if it is no delegation, its names print as single tokens, its terms are ground and printable and its time is below 2^63; nothing is assumed of predicate and says atoms, and delegations are taken as the parser yields them |
| Reread.RereadsOnce | src/core/parser.c:321-351 | when the text of a says goal reads as another goal, that one has the same principal, and its own text reads back as it is or not at all |
| Reread.QuotedNameChangesGoal | src/core/parser.c:321-351 | the goal written with a quoted predicate p# and a variable prints as text that reads as the goal p without arguments |
| Reread.NumericNameReads | src/core/parser.c:321-351 | a says atom with the numeric predicate 12 is read back |
| Reread.FullStopIsRead | src/core/parser.c:610-633 | a full stop behind a name is read past |
| Reread.NegativeReadsAsSymbol | src/core/canon.c:37-39 | a negative integer is printed as a text that reads as a symbol |
| RoundTrip.CanonicalTextInjective | src/core/canon.c:46-111 | distinct printable atoms have distinct canonical texts |
| Reread.DelegationReads | src/core/canon.c:54-62 | the canonical text of a delegation is rejected, except when its scope holds a comment that runs to the end of the text: then it reads as whatever delegation the text in front of the comment gives |
| Reread.DelegationLost | src/core/canon.c:54-62 | so it never reads back as the delegation itself |
| Reread.ScopeBecomesDepth | src/core/parser.c:269-273 | the delegation with the quoted scope depth=9]# prints as text that reads as a delegation of depth 9 without scope |
| AttributeLists.AttributeListReads | src/core/parser.c:226-292 | a delegation written with any list of attributes in brackets, in any order, with repeated and unknown keys, is read with the last textual scope, the last numeric expiry and the last numeric depth modulo 2^32 |
| AttributeLists.EveryDelegationIsWritten | src/core/parser.c:226-292 | every delegation that can be read is what some such text reads as |
| Cbor.HeadReads | src/core/cbor.c:77-108 | a written head followed by anything is read back with its value, consuming what was written, for all five widths |
| Cbor.HeadShortest | src/core/cbor.c:25-75 | no byte string that reads as this head is shorter than the one written, as section 4.2.1 of RFC 8949 asks |
| Cbor.AppendixA | src/core/cbor.c:25-185 | the items of appendix A of RFC 8949 have the bytes given there |
| Cbor.IntReads | src/core/cbor.c:187-218 | every 64-bit integer but the smallest is read back, whatever follows |
| Cbor.TextReads | src/core/cbor.c:248-264 | a C string is read back, whatever follows |
| Cbor.BytesRead | src/core/cbor.c:266-285 | a byte string is read back, whatever follows |
| Cbor.Buffer.Reserve | src/core/cbor.c:6-23 | doubling makes room for the extra bytes and keeps the contents |
| Cbor.Buffer.WriteHead | src/core/cbor.c:25-75 | the byte-wise writer appends the head in the shortest of the five widths |
| Cbor.Buffer.WriteInt | src/core/cbor.c:127-132 | appends the encoding of a signed 64-bit integer |
| Cbor.Buffer.WriteText | src/core/cbor.c:150-159 | appends head and characters |
| Cbor.Cursor.TakeHead | src/core/cbor.c:77-108 | the cursor loop computes the big-endian value and offset, failing exactly on a wrong major type, reserved information or missing bytes |
| Cbor.Cursor.TakeInt | src/core/cbor.c:191-218 | reads either sign with the wrap of the cast |
| Cbor.Cursor.TakeText | src/core/cbor.c:248-264 | reads a text up to its first NUL, failing exactly when the item is missing or truncated |
| Sha256.Expand | src/core/sha256.c:51-63 | the two loops fill the message schedule of section 6.2.2 of FIPS 180-4 |
| Sha256.Mix | src/core/sha256.c:65-90 | the 64 in-place rounds compute the round function of section 6.2.2 |
| Sha256.Transform | src/core/sha256.c:32-100 | one call compresses one block into the state |
| Sha256.Context.Update | src/core/sha256.c:111-128 | after any sequence of updates the state is the fold of the whole blocks of all bytes given so far and the buffer holds the rest |
| Sha256.Context.PadFront | src/core/sha256.c:134-145 | the one-bit and zero bytes, with or without an extra block, are those of section 5.1.1 |
| Sha256.Context.Final | src/core/sha256.c:130-158 | the digest is the fold of the compression over the padded message of sections 5.1.1 and 5.2.1, whatever the split into updates |
| Sha256.DigestOfPieces | src/core/sha256.c:111-158 | one digest for every way of cutting a message into pieces |
| Sha256.Sha256Hex | src/core/sha256.c:160-179 | the lower-case hexadecimal text of the digest |
| Sha256Standard.ChooseBits | src/core/sha256.c:76 | the choice function takes the bit of the second word where the first has a one, and of the third where it has a zero |
| Sha256Standard.MajorityBits | src/core/sha256.c:79 | the majority function has the bits that at least two words share |
| Sha256Standard.RotateBits | src/core/sha256.c:28-30 | rotation by n brings bit i + n, modulo 32, to bit i |
| Sha256Standard.BigSigma0Bits | src/core/sha256.c:78 | bit i is the sum of bits i + 2, i + 13 and i + 22 of the word, modulo 32 |
| Sha256Standard.BigSigma1Bits | src/core/sha256.c:75 | bit i is the sum of bits i + 6, i + 11 and i + 25 of the word, modulo 32 |
| Sha256Standard.SmallSigma0Bits | src/core/sha256.c:58-59 | bit i is the sum of bits i + 7 and i + 18, modulo 32, and of bit i + 3 if there is one |
| Sha256Standard.SmallSigma1Bits | src/core/sha256.c:60-61 | bit i is the sum of bits i + 17 and i + 19, modulo 32, and of bit i + 10 if there is one |
| Sha256Standard.RoundConstantsAreRoots | src/core/sha256.c:7-26 | the round constants are the first 32 bits of the fractional parts of the cube roots of the first sixty-four primes, none left out |
| Sha256Standard.InitialWordsAreRoots | src/core/sha256.c:102-109 | the initial words, as integers, are those of the square roots of the first eight |
| Sha256Example.HashAbc | src/core/sha256.c:160-179 | the digest of "abc", round by round, is the one of the standard |
| Wire.BundleList.AddCopy | src/runtime/distributed.c:253-308 | a bundle is appended unless its node and query are already there |
| Wire.WithBundlesExact | src/runtime/distributed.c:310-325 | appending a list keeps what is there and distinct keys, gives every appended bundle an entry under its key, and takes new entries only from that list |
| Wire.BundleList.AppendUnique | src/runtime/distributed.c:310-325 | the loop computes that append |
| Wire.RouteMap.Add | src/runtime/distributed.c:127-161 | the first route of the principal is replaced in place, a new principal goes to the end |
| Wire.WithRouteExact | src/runtime/distributed.c:127-161 | adding a route changes the answer for its principal and for nobody else |
| Wire.MergeOverlays | src/runtime/distributed.c:174-184 | a merge lays the second map over the first and keeps principals distinct |
| Wire.WriteBundle | src/runtime/distributed.c:809-826 | writes the five fields in order, null for a missing trace or proof |
| Wire.WriteRoutes | src/runtime/distributed.c:828-855 | the count and the entries agree: exactly the routes with a name and an endpoint are written |
| Wire.TakeBundle | src/runtime/distributed.c:923-981 | the loop over the fields computes the reader function, failing on unknown keys, bad values or a missing node, query or certificate |
| Wire.BundleReads | src/runtime/distributed.c:923-981 | a written bundle followed by anything is read back as it was, missing trace and proof included |
| Wire.ResponseReads | src/runtime/distributed.c:1077-1199 | an encoded OK response with distinct keys and principals is read back with the same bundles in order, the same routes and the endpoint cut to its buffer; an error response is read as a failure |
| Wire.PublishedRoutes | src/runtime/distributed.c:828-855 | what is published is exactly what has a name and an endpoint |
| Wire.EncodeOk | src/runtime/distributed.c:1007-1051 | the writer produces the response item over the published routes |
| Wire.EncodeError | src/runtime/distributed.c:1053-1075 | the writer produces the error item |
| Wire.DecodeResponse | src/runtime/distributed.c:1077-1199 | the cursor loop computes the reader function, for any bytes |
| Wire.ResponseRoundTrip | src/runtime/distributed.c:1007-1199 | DecodeResponse after EncodeOk returns the bundles in order, the publishable routes and the endpoint |
| Cert.BuildCertificate | src/engine/cert.c:41-104 | the bytes are the four fields, and the root is the hash of all bytes in front of its key |
| Cert.ReadBytesOf | src/engine/cert.c:124-225 | the reader loop computes the reader function for any bytes, duplicate and missing fields included |
| TraceText.DigestNode | src/engine/trace.c:73-102 | the buffer built piece by piece is hashed to the digest of the node |
| TraceText.DigestTextTells | src/engine/trace.c:81-96 | two nodes whose evidence holds no bar and no comma have one digest text if and only if they agree in id, kind, rule, premises and evidence and their facts have one canonical text |
| TraceText.RenderTrace | src/engine/trace.c:142-203 | the loop over the nodes builds the listing |
| TraceText.RenderedLines | src/engine/trace.c:153-195 | cut at its line ends the listing is one line for each node, in the order of the log |
| TraceText.LineBegins | src/engine/trace.c:158-160 | each line begins with id, kind and rule of its node, which the buffer of 512 bytes never cuts |
| TraceText.SampleRuleLine | src/engine/trace.c:153-195 | one line in full, premises and evidence included |
| Cert.CertificateReads | src/engine/cert.c:41-225 | what any built certificate is read as: nothing if the text of its query or of an answer does not parse, else what those texts parse to, with that root |
| Cert.CertificateExact | src/engine/cert.c:41-225 | it is read back as it was built if and only if its query and all its answers are printable |
| Cert.ReadableIffGround | src/engine/cert.c:153-161 | with printable answers and a query of single-token names it can be read at all if and only if the query has no variables |
| Network.ResolveOrder | src/runtime/distributed.c:1504-1547 | pinned routes win over own routes, those over the registry, and all over the seeds |
| Network.JointIsModel | src/runtime/distributed.c:1568-1910 | the least family of fact sets closed under the rules of every node from the earliest clock on, negations read in the base facts, and under transfer of answered says goals is itself closed |
| Network.LaterClocksAddNothing | src/engine/eval.c:78-81 | closure at the earliest clock is closure from then on, unless a stated fact of a negated predicate expires |
| Network.ExpiredDenialAdds | src/engine/eval.c:78-81 | when one does, a set that is closed up to its expiry is not closed after it |
| Network.StagesStayJoint | src/runtime/distributed.c:1797-1804 | a run that starts inside the joint least model at any later clock stays inside |
| Network.AnswerTransfers | src/runtime/distributed.c:1829-1910 | the answer to a routed ground says goal is the goal itself and holds for every node of the joint least model |
| Network.OwnIsHonest | src/runtime/distributed.c:1846-1884 | a bundle built from such an answer is read by the receiver as that very fact, or not at all |
| Network.DependencyIsGoal | src/runtime/distributed.c:1604-1630 | every goal reached from a goal is again one of the finitely many instances of body atoms over the terms of program and query |
| Distributed.HasDerivation | src/runtime/distributed.c:1549-1566 | true if and only if some clause head unifies with the goal; so whenever some independent head has an instance that is an instance of the goal, and only then if all heads are independent of the goal |
| Distributed.DependencyCovers | src/runtime/distributed.c:1612-1630 | whichever instance of a clause gives an instance of the goal, its body atoms are instances of the dependencies that are looked up |
| Distributed.HeldIsGoal | src/runtime/distributed.c:1651-1662 | for a goal of single-token names, what its text reads as is held if and only if the goal is ground and held |
| Distributed.UnseenDrops | src/runtime/distributed.c:1735-1743 | each newly visited goal lowers the number of goals still unseen, the measure by which resolution of recursive programs ends |
| Distributed.QueryRun.ImportBundle | src/runtime/distributed.c:1568-1593 | the answers are imported only after verification when there is a prover, and the engine stays inside the joint least model |
| Distributed.QueryRun.Fetch | src/runtime/distributed.c:1657-1689 | a remote goal is sent at most once; afterwards the atom its text reads as is a stored fact, every imported answer comes from a verified bundle with an entry in the list, and the list has no repeated key |
| Distributed.QueryRun.ResolveLiteral | src/runtime/distributed.c:1621-1714 | on success a says dependency is held as its text is read, and any other one is answered, underivable or visited |
| Distributed.QueryRun.ResolveClause | src/runtime/distributed.c:1604-1717 | on success every dependency of the goal through this clause is provided: for each substitution under which the clause gives an instance of the goal, what its body asks for is an instance of something provided; and every goal visited on the way is resolved |
| Distributed.QueryRun.ResolveGoal | src/runtime/distributed.c:1719-1769 | terminates for recursive programs; on success the goal is visited and every newly visited goal has an answer or all its dependencies provided |
| Distributed.Certify | src/runtime/distributed.c:1829-1880 | the emitted bundle certifies exactly the answers of the engine, with the digests and the text of its log and a proof from the prover |
| Distributed.ExecuteQuery | src/runtime/distributed.c:1771-1910 | every engine fact and every certified answer is in the joint least model; each visited goal is answered, or every clause that can give an instance of it has what its body asks for; the facts are those of a session of imports that begins and ends with a run; no remote query is repeated; imported answers are accounted for; the own bundle is last unless its key was there |
| Distributed.RestedIsLeastModel | src/runtime/distributed.c:1797-1805 | a run at rest holds exactly the least set around everything it imported that is closed under its clauses, negations read in the base facts |
| Distributed.SmallRunIsLeastModel | src/runtime/distributed.c:1797-1805 | so does every successful run whose clause heads have at most 64 instances over the terms of heads, imports and replies |
| Distributed.ReplyIsHonest | src/runtime/distributed.c:1957-2039 | a node asked for a routed says goal replies only with bundles whose certificates, if they can be read, state a jointly held fact that the query reads as |
| Distributed.RemoteQuery | src/runtime/distributed.c:1912-1948 | what arrives after encoding and decoding is honest, without repeated keys, and has an entry for the query sent |

## Left out

- Distributed.RemoteQuery: nested remote queries are bounded by a `fuel` parameter, because nodes that ask each other the same goal recurse without end; fuel 0 counts as a failed connection. Within one node nothing is bounded.
- Distributed.ExecuteQuery: soundness is stated for semi-positive programs, since `EarlyNegationIsUnsupported` shows that others derive facts nothing supports, and for peers that run this same code; a peer that sends other bytes is covered only by what DecodeResponse and ReadBytesOf state for any input.
- Negation.SettledIsPerfect: gives three sufficient conditions, and for each of them a program that breaks only that one and goes wrong; whether an early negation is later defeated depends on the data, so no condition on the clauses alone is exact.
- Cbor.IntReads: excludes the smallest 64-bit integer, whose reading negates after a cast and is undefined in C.
- Sha256.Sha256Hex: the pointer arithmetic and `memcpy` are sequence operations; lengths are not bounded, the length field wraps at 64 bits as in the code.
- Wire.EncodeOk: asks for C strings and counts that fit in 64 bits, which every C value satisfies; where bundles are sent the model checks this and treats the opposite as an encoding failure.
- Parser.Scanner.AtomCore: a says atom whose predicate token carries no text stores a null pointer in the code; the model rejects it.
- Parser.ParseAtomText: a says atom whose predicate token carries no text stores a null pointer in the code; the model rejects it.
- Tables.RelationSet.AddFact: predicate names beginning with two underscores are excluded, since relation keys reserve `__says__` and `__speaks_for__`.
- EngineCore.Engine.constructor: loading a second program into a used engine is not modelled.
- Program files: clauses and capability declarations are given parsed; only atoms are parsed from text.
- The request codec, announcements, and changes of the registry while a query runs; stored routes are fixed.
- Sockets, message framing, fork and accept loop, signals, temporary files, prover and adapter processes.
- Allocation failure, error texts and line numbers, buffer growth other than that of the CBOR buffer.
- The capacity of the digest text buffer of a trace node, which cuts long premise lists.
- Binding lists are maps, premise and fact arrays are sequences; their order matches the code but only the log order is stated.
- Stratum labels are unbounded integers.
- Curve arithmetic of the trace checker, snapshots, signers, artifact store, telemetry, user interface and command line.
