/** Program validation: range restriction and stratum labels (src/engine/strata.c). */
module Strata {
  import opened Syntax
  import opened Tables
  import opened Semantics

  // ---------- The dependency graph over relation keys ----------

  datatype Step = Step(from: nat, to: nat, negated: bool)

  /** Literal `l` of clause `c` makes the clause's head depend on a relation some clause defines. */
  ghost predicate DependsAt(program: seq<Statement>, keys: seq<string>, c: nat, l: nat, s: Step) {
    && c < |program| && program[c].Clause? && l < |program[c].body|
    && !IsCapability(program, program[c].body[l])
    && s.from < |keys| && s.to < |keys|
    && keys[s.from] == RelationKey(program[c].body[l].atom) && keys[s.to] == RelationKey(program[c].head)
    && s.negated == program[c].body[l].negated
  }

  /** All dependencies between the relations the program's clauses define. */
  ghost function Edges(program: seq<Statement>, keys: seq<string>): iset<Step> {
    iset c: nat, l: nat, s | DependsAt(program, keys, c, l, s) :: s
  }

  ghost predicate Within(edges: iset<Step>, n: nat) {
    forall s :: s in edges ==> s.from < n && s.to < n
  }

  function Weight(negated: bool): int {
    if negated then 1 else 0
  }

  /** Each head is at least as high as what it depends on, and strictly above what it negates. */
  ghost predicate Stratification(edges: iset<Step>, labels: seq<int>)
    requires Within(edges, |labels|)
  {
    && (forall v :: 0 <= v < |labels| ==> labels[v] >= 0)
    && forall s :: s in edges ==> labels[s.from] + Weight(s.negated) <= labels[s.to]
  }

  ghost predicate Walk(edges: iset<Step>, p: seq<Step>) {
    && (forall i :: 0 <= i < |p| ==> p[i] in edges)
    && forall i :: 0 <= i < |p| - 1 ==> p[i].to == p[i + 1].from
  }

  ghost predicate Negates(p: seq<Step>) {
    exists i :: 0 <= i < |p| && p[i].negated
  }

  ghost predicate NegativeWalk(edges: iset<Step>, p: seq<Step>, u: nat, v: nat) {
    p != [] && Walk(edges, p) && Negates(p) && p[0].from == u && p[|p| - 1].to == v
  }

  ghost predicate DependsNegatively(edges: iset<Step>, u: nat, v: nat) {
    exists p :: NegativeWalk(edges, p, u, v)
  }

  /** Some relation depends on itself through a negated literal. */
  ghost predicate NegativeCycle(edges: iset<Step>) {
    exists v :: DependsNegatively(edges, v, v)
  }

  ghost predicate Climbs(labels: seq<int>, p: seq<Step>) {
    && (forall i :: 0 <= i < |p| ==>
          p[i].from < |labels| && p[i].to < |labels| && labels[p[i].from] + Weight(p[i].negated) <= labels[p[i].to])
    && forall i :: 0 <= i < |p| - 1 ==> p[i].to == p[i + 1].from
  }

  lemma {:induction false} WalkClimbs(labels: seq<int>, p: seq<Step>)
    requires Climbs(labels, p) && p != []
    ensures labels[p[0].from] + Weight(Negates(p)) <= labels[p[|p| - 1].to]
  {
    var n := |p| - 1;
    if n > 0 {
      var q := p[..n];
      WalkClimbs(labels, q);
      assert p[n - 1].to == p[n - 1 + 1].from;
      if Negates(p) && !p[n].negated {
        var i :| 0 <= i < |p| && p[i].negated;
        assert q[i].negated;
      }
    }
  }

  lemma StratifiedHasNoNegativeCycle(edges: iset<Step>, labels: seq<int>)
    requires Within(edges, |labels|) && Stratification(edges, labels)
    ensures !NegativeCycle(edges)
  {
    forall v: nat, p: seq<Step> | NegativeWalk(edges, p, v, v)
      ensures false
    {
      forall i | 0 <= i < |p|
        ensures labels[p[i].from] + Weight(p[i].negated) <= labels[p[i].to]
      {
        assert p[i] in edges;
      }
      WalkClimbs(labels, p);
    }
  }

  /** The relations `v` depends on through at least one negated literal. */
  ghost function Below(edges: iset<Step>, n: nat, v: nat): set<nat> {
    set u: nat | u < n && DependsNegatively(edges, u, v)
  }

  /** Without a negative cycle, counting what each relation depends on negatively stratifies the program. */
  lemma CountsStratify(edges: iset<Step>, n: nat) returns (labels: seq<int>)
    requires !NegativeCycle(edges) && Within(edges, n)
    ensures |labels| == n && Stratification(edges, labels)
  {
    labels := seq(n, v requires 0 <= v < n => |Below(edges, n, v)|);
    forall s | s in edges
      ensures labels[s.from] + Weight(s.negated) <= labels[s.to]
    {
      CountsClimb(edges, n, s);
    }
  }

  lemma WalkOneMore(edges: iset<Step>, p: seq<Step>, u: nat, s: Step)
    requires NegativeWalk(edges, p, u, s.from) && s in edges
    ensures NegativeWalk(edges, p + [s], u, s.to)
  {
    var i :| 0 <= i < |p| && p[i].negated;
    assert (p + [s])[i].negated;
  }

  lemma CountsClimb(edges: iset<Step>, n: nat, s: Step)
    requires !NegativeCycle(edges) && Within(edges, n) && s in edges
    ensures |Below(edges, n, s.from)| + Weight(s.negated) <= |Below(edges, n, s.to)|
  {
    var lower, upper := Below(edges, n, s.from), Below(edges, n, s.to);
    forall u | u in lower
      ensures u in upper
    {
      var p: seq<Step> :| NegativeWalk(edges, p, u, s.from);
      WalkOneMore(edges, p, u, s);
    }
    if s.negated {
      assert [s][0].negated;
      assert NegativeWalk(edges, [s], s.from, s.to);
      assert s.from !in lower;
      SubsetSize(lower + {s.from}, upper);
    } else {
      SubsetSize(lower, upper);
    }
  }

  // ---------- Why relaxation settles ----------

  ghost function Sum(labels: seq<int>): int {
    if labels == [] then 0 else Sum(labels[..|labels| - 1]) + labels[|labels| - 1]
  }

  lemma {:induction false} SumNonNegative(labels: seq<int>)
    requires forall v :: 0 <= v < |labels| ==> labels[v] >= 0
    ensures Sum(labels) >= 0
  {
    if labels != [] {
      SumNonNegative(labels[..|labels| - 1]);
    }
  }

  lemma {:induction false} SumSmaller(a: seq<int>, b: seq<int>)
    requires |a| == |b| && forall v :: 0 <= v < |a| ==> a[v] <= b[v]
    ensures Sum(a) <= Sum(b)
    ensures a != b ==> Sum(a) < Sum(b)
  {
    if a != [] {
      SumSmaller(a[..|a| - 1], b[..|b| - 1]);
      if a != b && a[|a| - 1] == b[|b| - 1] {
        assert a == a[..|a| - 1] + [a[|a| - 1]] && b == b[..|b| - 1] + [b[|b| - 1]];
      }
    }
  }

  ghost predicate Lowest(edges: iset<Step>, labels: seq<int>)
    requires Within(edges, |labels|)
  {
    && Stratification(edges, labels)
    && forall other :: |other| == |labels| && Stratification(edges, other) ==> Sum(labels) <= Sum(other)
  }

  lemma {:induction false} LowestExists(edges: iset<Step>, labels: seq<int>)
    returns (lowest: seq<int>)
    requires Within(edges, |labels|) && Stratification(edges, labels)
    ensures |lowest| == |labels| && Lowest(edges, lowest)
    decreases Sum(labels)
  {
    if other :| |other| == |labels| && Stratification(edges, other) && Sum(other) < Sum(labels) {
      SumNonNegative(other);
      lowest := LowestExists(edges, other);
    } else {
      lowest := labels;
    }
  }

  ghost predicate NotAbove(a: seq<int>, b: seq<int>) {
    |a| == |b| && forall v :: 0 <= v < |a| ==> a[v] <= b[v]
  }

  ghost function Final(labels: seq<int>, goal: seq<int>): set<nat>
    requires |labels| == |goal|
  {
    set v: nat | v < |labels| && labels[v] == goal[v]
  }

  /** What one pass over all clauses achieves, whatever the order of the clauses. */
  ghost predicate Relaxed(edges: iset<Step>, before: seq<int>, after: seq<int>)
    requires Within(edges, |before|)
  {
    && NotAbove(before, after)
    && (forall s :: s in edges ==> before[s.from] + Weight(s.negated) <= after[s.to])
    && forall goal :: NotAbove(before, goal) && Stratification(edges, goal) ==> NotAbove(after, goal)
  }

  /** While some label is short of the lowest stratification, a pass completes at least one more. */
  lemma PassCompletesOne(edges: iset<Step>, before: seq<int>, after: seq<int>, goal: seq<int>)
    requires Within(edges, |before|) && Relaxed(edges, before, after)
    requires NotAbove(before, goal) && Lowest(edges, goal)
    requires forall v :: 0 <= v < |before| ==> before[v] >= 0
    requires before != goal
    ensures NotAbove(after, goal) && |Final(before, goal)| < |Final(after, goal)|
  {
    var short :| 0 <= short < |before| && before[short] != goal[short];
    if forall v :: v in Final(after, goal) ==> v in Final(before, goal) {
      // Were nothing completed, every short label could be lowered by one.
      var lower := seq(|goal|, v requires 0 <= v < |goal| => if before[v] == goal[v] then goal[v] else goal[v] - 1);
      forall s | s in edges
        ensures lower[s.from] + Weight(s.negated) <= lower[s.to]
      {
        assert goal[s.from] + Weight(s.negated) <= goal[s.to];
        if before[s.from] == goal[s.from] && before[s.to] != goal[s.to] {
          assert before[s.from] + Weight(s.negated) <= after[s.to];
          assert s.to !in Final(after, goal);
        }
      }
      assert Stratification(edges, lower);
      assert lower[short] != goal[short];
      SumSmaller(lower, goal);
    }
    forall v | v in Final(before, goal)
      ensures v in Final(after, goal)
    {
      assert before[v] <= after[v] <= goal[v];
    }
    var w :| w in Final(after, goal) && w !in Final(before, goal);
    SubsetSize(Final(before, goal) + {w}, Final(after, goal));
  }

  ghost function Indices(n: nat): (r: set<nat>)
    ensures |r| == n && forall v: nat :: v in r <==> v < n
  {
    if n == 0 then {} else Indices(n - 1) + {n - 1}
  }

  /** A pass that changes nothing leaves a stratification below every other one. */
  lemma QuietIsLeast(edges: iset<Step>, labels: seq<int>)
    requires Within(edges, |labels|) && Relaxed(edges, labels, labels)
    requires forall v :: 0 <= v < |labels| ==> labels[v] >= 0
    ensures Stratification(edges, labels)
  {
  }

  // ---------- The imperative algorithm ----------

  /** etb_key_index: the first position of the key, or |keys|. */
  method KeyIndex(keys: seq<string>, key: string) returns (at: nat)
    ensures at <= |keys|
    ensures at < |keys| ==> keys[at] == key
    ensures at == |keys| <==> key !in keys
  {
    at := 0;
    while at < |keys|
      invariant at <= |keys|
      invariant forall i :: 0 <= i < at ==> keys[i] != key
    {
      if keys[at] == key {
        return;
      }
      at := at + 1;
    }
  }

  predicate Distinct(xs: seq<string>) {
    forall i, j :: 0 <= i < j < |xs| ==> xs[i] != xs[j]
  }

  /** The distinct keys of the clause heads, in order of first appearance. */
  method HeadKeys(program: seq<Statement>) returns (keys: seq<string>)
    ensures Distinct(keys)
    ensures forall k :: k in keys <==>
      exists c :: 0 <= c < |program| && program[c].Clause? && RelationKey(program[c].head) == k
  {
    keys := [];
    var c := 0;
    while c < |program|
      invariant 0 <= c <= |program|
      invariant Distinct(keys)
      invariant forall k :: k in keys <==>
        exists d :: 0 <= d < c && program[d].Clause? && RelationKey(program[d].head) == k
    {
      if program[c].Clause? {
        var key := RelationKey(program[c].head);
        var at := KeyIndex(keys, key);
        if at == |keys| {
          keys := keys + [key];
        }
      }
      c := c + 1;
    }
  }

  function Elements(xs: seq<string>): set<string> {
    set x | x in xs
  }

  /** etb_collect_atom_variables over a duplicate-free list. */
  method CollectVariables(ts: seq<Term>, xs: seq<string>) returns (out: seq<string>)
    ensures Elements(out) == Elements(xs) + Vars(ts)
  {
    out := xs;
    var i := 0;
    while i < |ts|
      invariant 0 <= i <= |ts|
      invariant Elements(out) == Elements(xs) + Vars(ts[..i])
    {
      VarsUpTo(ts, i);
      if ts[i].Variable? {
        var at := KeyIndex(out, ts[i].name);
        if at == |out| {
          ghost var shorter := out;
          out := out + [ts[i].name];
          assert Elements(out) == Elements(shorter) + {ts[i].name};
        }
      }
      i := i + 1;
    }
    assert ts[..|ts|] == ts;
  }

  method FindCapability(program: seq<Statement>, name: string, arity: nat) returns (found: bool)
    ensures found <==> Capability(name, arity) in program
  {
    var i := 0;
    while i < |program|
      invariant 0 <= i <= |program|
      invariant Capability(name, arity) !in program[..i]
    {
      if program[i] == Capability(name, arity) {
        return true;
      }
      i := i + 1;
    }
    found := false;
  }

  method CheckCapability(program: seq<Statement>, lit: Literal) returns (yes: bool)
    ensures yes <==> IsCapability(program, lit)
  {
    if !lit.atom.Predicate? {
      return false;
    }
    yes := FindCapability(program, lit.atom.pred, |lit.atom.terms|);
  }

  /** The checks on one clause (source lines 120-143). */
  method CheckClause(program: seq<Statement>, c: Statement) returns (ok: bool)
    requires c.Clause?
    ensures ok <==> ClauseValid(program, c)
  {
    var positive: seq<string> := [];
    var constrained: seq<string> := [];
    var l := 0;
    while l < |c.body|
      invariant 0 <= l <= |c.body|
      invariant forall j :: 0 <= j < l ==> NegationAllowed(program, c.body[j])
      invariant Elements(positive) == BoundBy(c.body, l)
      invariant Elements(constrained) == NegatedVars(c.body, l)
    {
      var lit := c.body[l];
      if lit.negated {
        var capability := CheckCapability(program, lit);
        if !lit.atom.Predicate? || capability {
          return false;
        }
        constrained := CollectVariables(lit.atom.Args(), constrained);
      } else {
        positive := CollectVariables(lit.atom.Args(), positive);
      }
      l := l + 1;
    }
    constrained := CollectVariables(c.head.Args(), constrained);
    assert Elements(constrained) == NegatedVars(c.body, |c.body|) + Vars(c.head.Args());
    var i := 0;
    while i < |constrained|
      invariant 0 <= i <= |constrained|
      invariant forall k :: 0 <= k < i ==> constrained[k] in positive
    {
      var at := KeyIndex(positive, constrained[i]);
      if at == |positive| {
        assert constrained[i] in Elements(constrained) && constrained[i] !in Elements(positive);
        assert constrained[i] in Vars(c.head.Args()) + NegatedVars(c.body, |c.body|);
        assert !RangeRestricted(c);
        return false;
      }
      i := i + 1;
    }
    ok := true;
    forall x | x in Vars(c.head.Args()) + NegatedVars(c.body, |c.body|)
      ensures x in BoundBy(c.body, |c.body|)
    {
      assert x in Elements(constrained);
      assert x in Elements(positive);
    }
  }

  /** One literal of the relaxation (source lines 167-190). */
  method RelaxLiteral(program: seq<Statement>, keys: seq<string>, c: nat, l: nat, head: nat, strata: array<int>)
    returns (changed: bool)
    requires Distinct(keys) && strata.Length == |keys|
    requires c < |program| && program[c].Clause? && l < |program[c].body|
    requires head < |keys| && keys[head] == RelationKey(program[c].head)
    modifies strata
    ensures changed <==> strata[..] != old(strata[..])
    ensures RelaxedSome(Edges(program, keys), old(strata[..]), strata[..], iset s | DependsAt(program, keys, c, l, s))
  {
    changed := false;
    var lit := program[c].body[l];
    var capability := CheckCapability(program, lit);
    if capability {
      return;
    }
    var at := KeyIndex(keys, RelationKey(lit.atom));
    if at == |keys| {
      return;
    }
    ghost var s := Step(at, head, lit.negated);
    assert DependsAt(program, keys, c, l, s);
    assert s in Edges(program, keys);
    var needed := strata[at] + (if lit.negated then 1 else 0);
    RaiseOne(Edges(program, keys), strata[..], s);
    OneStep(program, keys, c, l, s);
    ghost var before := strata[..];
    if strata[head] < needed {
      strata[head] := needed;
      changed := true;
      assert strata[..][head] != before[head];
    }
    assert strata[..] == Raise(before, s);
  }

  function Raise(labels: seq<int>, s: Step): seq<int>
    requires s.from < |labels| && s.to < |labels|
  {
    var needed := labels[s.from] + Weight(s.negated);
    if labels[s.to] < needed then labels[s.to := needed] else labels
  }

  lemma RaiseOne(edges: iset<Step>, labels: seq<int>, s: Step)
    requires Within(edges, |labels|) && s in edges
    ensures RelaxedSome(edges, labels, Raise(labels, s), iset{s})
  {
    forall goal | NotAbove(labels, goal) && Stratification(edges, goal)
      ensures NotAbove(Raise(labels, s), goal)
    {
      assert goal[s.from] + Weight(s.negated) <= goal[s.to];
    }
  }

  /** A literal adds one dependency at most, the keys being distinct. */
  lemma OneStep(program: seq<Statement>, keys: seq<string>, c: nat, l: nat, s: Step)
    requires Distinct(keys) && DependsAt(program, keys, c, l, s)
    ensures (iset t | DependsAt(program, keys, c, l, t)) == iset{s}
  {
  }

  /** What part of a pass has achieved, `done` naming the dependencies it has relaxed. */
  ghost predicate RelaxedSome(edges: iset<Step>, before: seq<int>, after: seq<int>, done: iset<Step>) {
    && Within(edges, |before|) && NotAbove(before, after)
    && (forall s :: s in done && s in edges ==> before[s.from] + Weight(s.negated) <= after[s.to])
    && forall goal :: NotAbove(before, goal) && Stratification(edges, goal) ==> NotAbove(after, goal)
  }

  lemma RelaxedMore(edges: iset<Step>, before: seq<int>, mid: seq<int>, after: seq<int>, done: iset<Step>,
                    more: iset<Step>)
    requires RelaxedSome(edges, before, mid, done) && RelaxedSome(edges, mid, after, more)
    ensures RelaxedSome(edges, before, after, done + more)
    ensures after == before <==> mid == before && after == mid
  {
    forall s | s in done + more && s in edges
      ensures before[s.from] + Weight(s.negated) <= after[s.to]
    {
      assert mid[s.to] <= after[s.to] && before[s.from] <= mid[s.from];
    }
    if after == before {
      Sandwich(before, mid);
    }
  }

  lemma Sandwich(a: seq<int>, b: seq<int>)
    requires NotAbove(a, b) && NotAbove(b, a)
    ensures a == b
  {
    forall v | 0 <= v < |a|
      ensures a[v] == b[v]
    {
      assert a[v] <= b[v] <= a[v];
    }
  }

  /** The dependencies of the first `c` clauses and of the first `l` literals of the next one. */
  ghost function Upto(program: seq<Statement>, keys: seq<string>, c: nat, l: nat): iset<Step> {
    iset d: nat, m: nat, s | Earlier(d, m, c, l) && DependsAt(program, keys, d, m, s) :: s
  }

  ghost predicate Earlier(d: nat, m: nat, c: nat, l: nat) {
    d < c || (d == c && m < l)
  }

  lemma UptoNextLiteral(program: seq<Statement>, keys: seq<string>, c: nat, l: nat)
    ensures Upto(program, keys, c, l + 1) == Upto(program, keys, c, l) + (iset s | DependsAt(program, keys, c, l, s))
  {
    forall s
      ensures s in Upto(program, keys, c, l + 1) <==>
        s in Upto(program, keys, c, l) || DependsAt(program, keys, c, l, s)
    {
      if s in Upto(program, keys, c, l + 1) {
        var d: nat, m: nat :| Earlier(d, m, c, l + 1) && DependsAt(program, keys, d, m, s);
        assert Earlier(d, m, c, l) || (d == c && m == l);
      }
      if s in Upto(program, keys, c, l) {
        var d: nat, m: nat :| Earlier(d, m, c, l) && DependsAt(program, keys, d, m, s);
        assert Earlier(d, m, c, l + 1);
      }
      if DependsAt(program, keys, c, l, s) {
        assert Earlier(c, l, c, l + 1);
      }
    }
  }

  lemma UptoNextClause(program: seq<Statement>, keys: seq<string>, c: nat, l: nat)
    requires c < |program| && (program[c].Clause? ==> l == |program[c].body|)
    ensures Upto(program, keys, c + 1, 0) == Upto(program, keys, c, l)
  {
    forall s
      ensures s in Upto(program, keys, c + 1, 0) <==> s in Upto(program, keys, c, l)
    {
      if s in Upto(program, keys, c + 1, 0) {
        var d: nat, m: nat :| Earlier(d, m, c + 1, 0) && DependsAt(program, keys, d, m, s);
        assert Earlier(d, m, c, l);
      }
      if s in Upto(program, keys, c, l) {
        var d: nat, m: nat :| Earlier(d, m, c, l) && DependsAt(program, keys, d, m, s);
        assert Earlier(d, m, c + 1, 0);
      }
    }
  }

  /** One pass over all clauses and literals (source lines 149-191). */
  method RelaxPass(program: seq<Statement>, keys: seq<string>, strata: array<int>) returns (changed: bool)
    requires Distinct(keys) && strata.Length == |keys|
    requires forall c :: 0 <= c < |program| && program[c].Clause? ==> RelationKey(program[c].head) in keys
    modifies strata
    ensures Relaxed(Edges(program, keys), old(strata[..]), strata[..])
    ensures changed <==> strata[..] != old(strata[..])
  {
    changed := false;
    ghost var before := strata[..];
    ghost var edges := Edges(program, keys);
    var c := 0;
    while c < |program|
      invariant 0 <= c <= |program|
      invariant changed <==> strata[..] != before
      invariant RelaxedSome(edges, before, strata[..], Upto(program, keys, c, 0))
    {
      if program[c].Clause? {
        var head := KeyIndex(keys, RelationKey(program[c].head));
        var l := 0;
        while l < |program[c].body|
          invariant 0 <= l <= |program[c].body|
          invariant changed <==> strata[..] != before
          invariant RelaxedSome(edges, before, strata[..], Upto(program, keys, c, l))
        {
          ghost var mid := strata[..];
          var raised := RelaxLiteral(program, keys, c, l, head, strata);
          changed := changed || raised;
          RelaxedMore(edges, before, mid, strata[..], Upto(program, keys, c, l),
                      iset s | DependsAt(program, keys, c, l, s));
          UptoNextLiteral(program, keys, c, l);
          l := l + 1;
        }
        UptoNextClause(program, keys, c, l);
      } else {
        UptoNextClause(program, keys, c, 0);
      }
      c := c + 1;
    }
    forall s | s in edges
      ensures s in Upto(program, keys, c, 0)
    {
      var d: nat, m: nat :| DependsAt(program, keys, d, m, s);
      assert Earlier(d, m, c, 0);
    }
  }

  /**
   * The relaxation loop (source lines 148-195). Its own flag, which the source drops, says whether
   * the labels came to rest: they do exactly when no relation depends on itself through a negated
   * literal, and are then the least stratification.
   */
  method Relax(program: seq<Statement>, keys: seq<string>, strata: array<int>) returns (settled: bool)
    requires Distinct(keys) && strata.Length == |keys|
    requires forall c :: 0 <= c < |program| && program[c].Clause? ==> RelationKey(program[c].head) in keys
    requires forall v :: 0 <= v < strata.Length ==> strata[v] == 0
    modifies strata
    ensures settled <==> !NegativeCycle(Edges(program, keys))
    ensures settled ==> Stratification(Edges(program, keys), strata[..])
    ensures settled ==> forall goal :: |goal| == |keys| && Stratification(Edges(program, keys), goal) ==>
      NotAbove(strata[..], goal)
  {
    hide Edges, NegativeCycle, Within, Final, Distinct, RelationKey;
    ghost var edges := Edges(program, keys);
    EdgesWithin(program, keys);
    ghost var goal: seq<int> := strata[..];
    if !NegativeCycle(edges) {
      var some := CountsStratify(edges, |keys|);
      goal := LowestExists(edges, some);
    }
    FinalSize(strata[..], goal);
    settled := false;
    var passes := 0;
    while passes < |keys| + 4
      invariant 0 <= passes <= |keys| + 4 && |goal| == |keys|
      invariant forall v :: 0 <= v < strata.Length ==> strata[v] >= 0
      invariant forall other :: |other| == |keys| && Stratification(edges, other) ==> NotAbove(strata[..], other)
      invariant !NegativeCycle(edges) ==> Lowest(edges, goal) && passes <= |Final(strata[..], goal)| <= |keys|
    {
      ghost var before := strata[..];
      var changed := RelaxPass(program, keys, strata);
      if !changed {
        settled := true;
        QuietIsLeast(edges, strata[..]);
        StratifiedHasNoNegativeCycle(edges, strata[..]);
        return;
      }
      if !NegativeCycle(edges) {
        PassProgress(edges, before, strata[..], goal);
      }
      passes := passes + 1;
    }
  }

  lemma EdgesWithin(program: seq<Statement>, keys: seq<string>)
    ensures Within(Edges(program, keys), |keys|)
  {
  }

  lemma PassProgress(edges: iset<Step>, before: seq<int>, after: seq<int>, goal: seq<int>)
    requires Within(edges, |before|) && Relaxed(edges, before, after) && before != after
    requires forall v :: 0 <= v < |before| ==> before[v] >= 0
    requires NotAbove(before, goal) && Lowest(edges, goal)
    ensures NotAbove(after, goal) && |Final(before, goal)| < |Final(after, goal)| <= |goal|
  {
    ShortOfGoal(edges, before, after, goal);
    PassCompletesOne(edges, before, after, goal);
    FinalSize(after, goal);
  }

  lemma FinalSize(labels: seq<int>, goal: seq<int>)
    requires |labels| == |goal|
    ensures |Final(labels, goal)| <= |goal|
  {
    SubsetSize(Final(labels, goal), Indices(|goal|));
  }

  lemma ShortOfGoal(edges: iset<Step>, before: seq<int>, after: seq<int>, goal: seq<int>)
    requires Within(edges, |before|) && Relaxed(edges, before, after) && NotAbove(before, goal)
    requires Lowest(edges, goal) && before != after
    ensures before != goal
  {
    if before == goal {
      Sandwich(before, after);
    }
  }

  /**
   * etb_program_validate. Besides the verdict it yields the label array that the source hands out
   * and its caller forgets, and the flag of the loop that computed it.
   */
  method Validate(program: seq<Statement>) returns (ok: bool, strata: array<int>, settled: bool, keys: seq<string>)
    ensures ok <==> Validated(program)
    ensures Distinct(keys) && fresh(strata) && strata.Length == |keys|
    ensures forall k :: k in keys <==>
      exists c :: 0 <= c < |program| && program[c].Clause? && RelationKey(program[c].head) == k
    ensures ok ==> (settled <==> !NegativeCycle(Edges(program, keys)))
    ensures ok && settled ==>
      && Stratification(Edges(program, keys), strata[..])
      && forall goal :: |goal| == |keys| && Stratification(Edges(program, keys), goal) ==> NotAbove(strata[..], goal)
  {
    keys := HeadKeys(program);
    strata := new int[|keys|](_ => 0);
    settled := false;
    var c := 0;
    while c < |program|
      invariant 0 <= c <= |program|
      invariant forall i :: 0 <= i < c ==> ClauseValid(program, program[i])
      invariant strata.Length == |keys| && forall v :: 0 <= v < strata.Length ==> strata[v] == 0
    {
      if program[c].Clause? {
        var valid := CheckClause(program, program[c]);
        if !valid {
          return false, strata, false, keys;
        }
      }
      c := c + 1;
    }
    ok := true;
    settled := Relax(program, keys, strata);
  }
}
