/** Terms, atoms, clauses and programs (include/etb/term.h, include/etb/ast.h). */
module Syntax {

  datatype Option<+T> = None | Some(value: T)

  datatype Term =
    | Symbol(text: string)
    | Variable(name: string)
    | Integer(value: int)
    | Str(text: string)
    | Null

  datatype Temporal = Untimed | ExpiresAt(time: nat) | AnchoredAt(time: nat)

  /** The three kinds of atom. Two atoms are equal exactly when etb_atom_equals says so. */
  datatype Atom =
    | Predicate(pred: string, terms: seq<Term>, when: Temporal)
    | Says(principal: string, pred: string, terms: seq<Term>, when: Temporal)
    | SpeaksFor(principal: string, delegate: string, scope: Option<string>, expiresAt: nat, maxDepth: nat,
                when: Temporal)
  {
    function Args(): seq<Term> {
      if SpeaksFor? then [] else terms
    }

    predicate Ground() {
      GroundTerms(Args())
    }
  }

  datatype Literal = Literal(negated: bool, atom: Atom)

  datatype Statement =
    | Clause(head: Atom, body: seq<Literal>)
    | Capability(name: string, arity: nat)

  datatype Fact = Fact(atom: Atom, traceId: nat)

  /** A binding list maps each bound name to the one value it was first put with. */
  type Bindings = map<string, Term>

  predicate GroundTerms(ts: seq<Term>) {
    forall i :: 0 <= i < |ts| ==> !ts[i].Variable?
  }

  predicate GroundBindings(b: Bindings) {
    forall x :: x in b ==> !b[x].Variable?
  }

  ghost predicate Extends(b: Bindings, c: Bindings) {
    b.Keys <= c.Keys && forall x :: x in b ==> c[x] == b[x]
  }

  function Restrict(b: Bindings, xs: set<string>): Bindings {
    map x | x in b && x in xs :: b[x]
  }

  function Vars(ts: seq<Term>): set<string> {
    set t | t in ts && t.Variable? :: t.name
  }

  function InstTerm(t: Term, b: Bindings): Term {
    if t.Variable? && t.name in b then b[t.name] else t
  }

  function Inst(ts: seq<Term>, b: Bindings): (r: seq<Term>)
    ensures |r| == |ts|
    ensures forall i :: 0 <= i < |ts| ==> r[i] == InstTerm(ts[i], b)
  {
    seq(|ts|, i requires 0 <= i < |ts| => InstTerm(ts[i], b))
  }

  function InstAtom(a: Atom, b: Bindings): (r: Atom)
    ensures r.Args() == Inst(a.Args(), b)
  {
    match a
    case Predicate(p, ts, w) => Predicate(p, Inst(ts, b), w)
    case Says(k, p, ts, w) => Says(k, p, Inst(ts, b), w)
    case SpeaksFor(_, _, _, _, _, _) => a
  }

  lemma VarIn(ts: seq<Term>, i: nat)
    requires i < |ts| && ts[i].Variable?
    ensures ts[i].name in Vars(ts)
  {
    assert ts[i] in ts;
  }

  lemma VarsUpTo(ts: seq<Term>, n: nat)
    requires n < |ts|
    ensures Vars(ts[..n + 1]) == Vars(ts[..n]) + (if ts[n].Variable? then {ts[n].name} else {})
  {
    assert ts[..n + 1] == ts[..n] + [ts[n]];
    var xs := Vars(ts[..n]) + (if ts[n].Variable? then {ts[n].name} else {});
    forall x | x in xs
      ensures x in Vars(ts[..n + 1])
    {
      if x in Vars(ts[..n]) {
        var t :| t in ts[..n] && t.Variable? && t.name == x;
        assert t in ts[..n + 1];
      } else {
        assert ts[n] in ts[..n + 1];
      }
    }
  }

  /** Instantiation reads only the variables that occur. */
  lemma InstAgree(ts: seq<Term>, b: Bindings, c: Bindings)
    requires forall x :: x in Vars(ts) ==> (x in b <==> x in c) && (x in b ==> b[x] == c[x])
    ensures Inst(ts, b) == Inst(ts, c)
  {
    forall i | 0 <= i < |ts|
      ensures InstTerm(ts[i], b) == InstTerm(ts[i], c)
    {
      if ts[i].Variable? {
        VarIn(ts, i);
      }
    }
  }

  lemma InstRestrict(ts: seq<Term>, b: Bindings, xs: set<string>)
    requires Vars(ts) <= xs
    ensures Inst(ts, Restrict(b, xs)) == Inst(ts, b)
  {
    InstAgree(ts, Restrict(b, xs), b);
  }

  /** A substitution that covers every variable makes every instance ground. */
  lemma InstGround(ts: seq<Term>, b: Bindings)
    requires Vars(ts) <= b.Keys && GroundBindings(b)
    ensures GroundTerms(Inst(ts, b))
  {
    forall i | 0 <= i < |ts|
      ensures !Inst(ts, b)[i].Variable?
    {
      if ts[i].Variable? {
        VarIn(ts, i);
      }
    }
  }

  lemma InstExtends(ts: seq<Term>, b: Bindings, c: Bindings)
    requires Vars(ts) <= b.Keys && Extends(b, c)
    ensures Inst(ts, c) == Inst(ts, b)
  {
    InstAgree(ts, b, c);
  }

  // ---------- Atoms over a finite set of terms ----------

  /** Lists of the given length over a set of terms. */
  function TermLists(ts: set<Term>, n: nat): (r: set<seq<Term>>)
    ensures forall l :: l in r <==> |l| == n && forall i :: 0 <= i < |l| ==> l[i] in ts
  {
    if n == 0 then {[]}
    else
      var r := set t, l | t in ts && l in TermLists(ts, n - 1) :: l + [t];
      assert forall l :: |l| == n && (forall i :: 0 <= i < |l| ==> l[i] in ts) ==> l in r by {
        forall l | |l| == n && (forall i :: 0 <= i < |l| ==> l[i] in ts)
          ensures l in r
        {
          assert l == l[..n - 1] + [l[n - 1]] && l[..n - 1] in TermLists(ts, n - 1);
        }
      }
      r
  }

  function WithArgs(a: Atom, ts: seq<Term>): Atom {
    match a
    case Predicate(p, _, w) => Predicate(p, ts, w)
    case Says(k, p, _, w) => Says(k, p, ts, w)
    case SpeaksFor(_, _, _, _, _, _) => a
  }

  /** Instantiation changes the arguments and nothing else. */
  lemma InstKeepsRest(a: Atom, b: Bindings)
    ensures InstAtom(a, b) == WithArgs(a, Inst(a.Args(), b))
  {
  }

  lemma {:induction false} SubsetSize<T>(a: set<T>, b: set<T>)
    requires a <= b
    ensures |a| <= |b| && (a != b ==> |a| < |b|)
  {
    if a != {} {
      var x :| x in a;
      SubsetSize(a - {x}, b - {x});
    }
  }
}
