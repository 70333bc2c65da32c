/** The bounded search for delegation between principals (src/engine/delegation.c). */
module Delegation {
  import opened Syntax
  import opened Tables

  /** Source line 63 starts the search at depth 0 with this bound. */
  const DEFAULT_BOUND: nat := 8

  /** Anything, or every predicate whose name begins with the scope text. */
  predicate ScopeAllows(scope: Option<string>, pred: string) {
    scope.None? || scope.value == "*" || scope.value <= pred
  }

  predicate Live(e: Atom, now: nat) {
    e.SpeaksFor? && (e.expiresAt != 0 ==> now <= e.expiresAt)
  }

  predicate UsableEdge(e: Atom, pred: string, now: nat) {
    Live(e, now) && ScopeAllows(e.scope, pred)
  }

  /** An edge with a depth of its own replaces the bound it inherits, be it smaller or larger. */
  function NextBound(e: Atom, bound: nat): nat
    requires e.SpeaksFor?
  {
    if e.maxDepth == 0 then bound else e.maxDepth
  }

  /** The bound in force when edge `i` of a path is about to be expanded. */
  function BoundAt(p: seq<Atom>, start: nat, i: nat): nat
    requires i <= |p| && forall k :: 0 <= k < |p| ==> p[k].SpeaksFor?
  {
    if i == 0 then start else NextBound(p[i - 1], BoundAt(p, start, i - 1))
  }

  /** `p` leads from `speaker` to `target` over stored edges that are unexpired and admit `pred`. */
  ghost predicate Path(facts: iset<Atom>, p: seq<Atom>, speaker: string, target: string, pred: string, now: nat) {
    && (forall i :: 0 <= i < |p| ==> p[i] in facts && UsableEdge(p[i], pred, now))
    && (forall i :: 0 <= i < |p| - 1 ==> p[i].delegate == p[i + 1].principal)
    && (if p == [] then speaker == target
        else p[0].principal == speaker && p[|p| - 1].delegate == target)
  }

  ghost predicate WithinBounds(p: seq<Atom>, depth: nat, bound: nat)
    requires forall k :: 0 <= k < |p| ==> p[k].SpeaksFor?
  {
    forall i :: 0 <= i < |p| ==> depth + i <= BoundAt(p, bound, i)
  }

  ghost predicate Witness(facts: iset<Atom>, p: seq<Atom>, speaker: string, target: string, pred: string, now: nat,
                          depth: nat, bound: nat) {
    Path(facts, p, speaker, target, pred, now) && WithinBounds(p, depth, bound)
  }

  ghost predicate Reaches(facts: iset<Atom>, speaker: string, target: string, pred: string, now: nat, depth: nat,
                          bound: nat) {
    exists p :: Witness(facts, p, speaker, target, pred, now, depth, bound)
  }

  /** What speaker says about pred counts as said by target. */
  ghost predicate Allows(facts: iset<Atom>, speaker: string, target: string, pred: string, now: nat) {
    Reaches(facts, speaker, target, pred, now, 0, 8)
  }

  lemma {:induction false} BoundAtTail(p: seq<Atom>, start: nat, i: nat)
    requires 0 < i <= |p| && forall k :: 0 <= k < |p| ==> p[k].SpeaksFor?
    ensures BoundAt(p, start, i) == BoundAt(p[1..], NextBound(p[0], start), i - 1)
  {
    if i > 1 {
      BoundAtTail(p, start, i - 1);
    }
  }

  /** A path with a first edge is that edge followed by a path one level deeper. */
  lemma WitnessUncons(facts: iset<Atom>, p: seq<Atom>, speaker: string, target: string, pred: string, now: nat,
                      depth: nat, bound: nat)
    requires p != [] && p[0].SpeaksFor?
    ensures Witness(facts, p, speaker, target, pred, now, depth, bound) <==>
      && depth <= bound && p[0] in facts && UsableEdge(p[0], pred, now) && p[0].principal == speaker
      && Witness(facts, p[1..], p[0].delegate, target, pred, now, depth + 1, NextBound(p[0], bound))
  {
    var q := p[1..];
    if Path(facts, p, speaker, target, pred, now) {
      forall i | 0 <= i < |q| - 1
        ensures q[i].delegate == q[i + 1].principal
      {
        assert p[i + 1].delegate == p[i + 1 + 1].principal;
      }
    }
    if p[0] in facts && UsableEdge(p[0], pred, now) && p[0].principal == speaker
       && Path(facts, q, p[0].delegate, target, pred, now) {
      forall i | 0 <= i < |p|
        ensures p[i] in facts && UsableEdge(p[i], pred, now)
      {
        if i > 0 {
          assert q[i - 1] == p[i];
        }
      }
      forall i | 0 <= i < |p| - 1
        ensures p[i].delegate == p[i + 1].principal
      {
        if i > 0 {
          assert q[i - 1].delegate == q[i - 1 + 1].principal;
        }
      }
    }
    if (forall k :: 0 <= k < |p| ==> p[k].SpeaksFor?) {
      forall i | 0 < i < |p|
        ensures BoundAt(p, bound, i) == BoundAt(q, NextBound(p[0], bound), i - 1)
      {
        BoundAtTail(p, bound, i);
      }
      if WithinBounds(q, depth + 1, NextBound(p[0], bound)) && depth <= bound {
        forall i | 0 <= i < |p|
          ensures depth + i <= BoundAt(p, bound, i)
        {
          if i > 0 {
            assert depth + 1 + (i - 1) <= BoundAt(q, NextBound(p[0], bound), i - 1);
          }
        }
      }
      if WithinBounds(p, depth, bound) {
        assert depth + 0 <= BoundAt(p, bound, 0);
        forall i | 0 <= i < |q|
          ensures depth + 1 + i <= BoundAt(q, NextBound(p[0], bound), i)
        {
          assert depth + (i + 1) <= BoundAt(p, bound, i + 1);
        }
      }
    }
  }

  ghost predicate FirstHop(facts: iset<Atom>, e: Atom, speaker: string, target: string, pred: string, now: nat,
                           depth: nat, bound: nat) {
    && e in facts && UsableEdge(e, pred, now) && e.principal == speaker
    && Reaches(facts, e.delegate, target, pred, now, depth + 1, NextBound(e, bound))
  }

  lemma ReachesUnfold(facts: iset<Atom>, speaker: string, target: string, pred: string, now: nat, depth: nat,
                      bound: nat)
    ensures Reaches(facts, speaker, target, pred, now, depth, bound) <==>
      speaker == target ||
      (depth <= bound && exists e :: FirstHop(facts, e, speaker, target, pred, now, depth, bound))
  {
    if speaker == target {
      assert Witness(facts, [], speaker, target, pred, now, depth, bound);
    } else if Reaches(facts, speaker, target, pred, now, depth, bound) {
      var p :| Witness(facts, p, speaker, target, pred, now, depth, bound);
      WitnessUncons(facts, p, speaker, target, pred, now, depth, bound);
      assert FirstHop(facts, p[0], speaker, target, pred, now, depth, bound);
    } else if depth <= bound && exists e :: FirstHop(facts, e, speaker, target, pred, now, depth, bound) {
      var e :| FirstHop(facts, e, speaker, target, pred, now, depth, bound);
      var q :| Witness(facts, q, e.delegate, target, pred, now, depth + 1, NextBound(e, bound));
      assert ([e] + q)[1..] == q;
      WitnessUncons(facts, [e] + q, speaker, target, pred, now, depth, bound);
    }
  }

  /** No stored edge carries a depth above the cap. */
  ghost predicate DepthsUpTo(facts: iset<Atom>, cap: nat) {
    forall e :: e in facts && e.SpeaksFor? ==> e.maxDepth <= cap
  }

  /**
   * etb_delegation_visit: the search over the stored edges finds a path exactly when one exists.
   * It stops on cyclic graphs because the depth never passes the largest bound an edge can set.
   */
  method Visit(relations: RelationSet, speaker: string, target: string, pred: string, now: nat, depth: nat, bound: nat,
               ghost cap: nat)
    returns (found: bool)
    requires relations.Valid()
    requires DepthsUpTo(relations.Db(), cap) && bound <= cap && depth <= cap + 1
    ensures found <==> Reaches(relations.Db(), speaker, target, pred, now, depth, bound)
    decreases cap + 1 - depth, 1
  {
    ghost var db := relations.Db();
    ReachesUnfold(db, speaker, target, pred, now, depth, bound);
    var at := relations.Find(SPEAKS_FOR_KEY);
    if speaker == target {
      return true;
    }
    EdgesIndexed(relations, at);
    if at == |relations.items| || depth > bound {
      return false;
    }
    var facts := relations.items[at].facts;
    var direct := HasDirectEdge(facts, speaker, target, pred, now);
    if direct {
      DirectEdgeReaches(db, facts, speaker, target, pred, now, depth, bound);
      return true;
    }
    found := VisitEach(relations, facts, speaker, target, pred, now, depth, bound, cap);
  }

  /** The second scan: go on from the far end of each usable edge that starts at the speaker. */
  method VisitEach(relations: RelationSet, facts: seq<Fact>, speaker: string, target: string, pred: string, now: nat,
                   depth: nat, bound: nat, ghost cap: nat)
    returns (found: bool)
    requires relations.Valid()
    requires DepthsUpTo(relations.Db(), cap) && depth <= bound <= cap
    requires forall i :: 0 <= i < |facts| ==> facts[i].atom in relations.Db() && facts[i].atom.SpeaksFor?
    ensures found <==>
      exists k :: 0 <= k < |facts| && FirstHop(relations.Db(), facts[k].atom, speaker, target, pred, now, depth, bound)
    decreases cap + 1 - depth, 0
  {
    var i := 0;
    while i < |facts|
      invariant i <= |facts|
      invariant forall k :: 0 <= k < i ==>
        !FirstHop(relations.Db(), facts[k].atom, speaker, target, pred, now, depth, bound)
    {
      var e := facts[i].atom;
      if e.principal == speaker && Live(e, now) && ScopeAllows(e.scope, pred) {
        var onward := Visit(relations, e.delegate, target, pred, now, depth + 1, NextBound(e, bound), cap);
        if onward {
          return true;
        }
      }
      i := i + 1;
    }
    found := false;
  }

  ghost predicate DirectEdge(e: Atom, speaker: string, target: string, pred: string, now: nat) {
    UsableEdge(e, pred, now) && e.principal == speaker && e.delegate == target
  }

  /** The first scan of the search, for an edge straight to the target. */
  method HasDirectEdge(facts: seq<Fact>, speaker: string, target: string, pred: string, now: nat) returns (found: bool)
    requires forall i :: 0 <= i < |facts| ==> facts[i].atom.SpeaksFor?
    ensures found <==> exists k :: 0 <= k < |facts| && DirectEdge(facts[k].atom, speaker, target, pred, now)
  {
    var i := 0;
    while i < |facts|
      invariant i <= |facts|
      invariant forall k :: 0 <= k < i ==> !DirectEdge(facts[k].atom, speaker, target, pred, now)
    {
      var e := facts[i].atom;
      if e.principal == speaker && e.delegate == target && Live(e, now) && ScopeAllows(e.scope, pred) {
        assert DirectEdge(facts[i].atom, speaker, target, pred, now);
        return true;
      }
      i := i + 1;
    }
    found := false;
  }

  lemma DirectEdgeReaches(db: iset<Atom>, facts: seq<Fact>, speaker: string, target: string, pred: string, now: nat,
                          depth: nat, bound: nat)
    requires forall i :: 0 <= i < |facts| ==> facts[i].atom in db
    requires exists k :: 0 <= k < |facts| && DirectEdge(facts[k].atom, speaker, target, pred, now)
    requires depth <= bound
    ensures Reaches(db, speaker, target, pred, now, depth, bound)
  {
    var k :| 0 <= k < |facts| && DirectEdge(facts[k].atom, speaker, target, pred, now);
    var e := facts[k].atom;
    ReachesUnfold(db, target, target, pred, now, depth + 1, NextBound(e, bound));
    assert FirstHop(db, e, speaker, target, pred, now, depth, bound);
    ReachesUnfold(db, speaker, target, pred, now, depth, bound);
  }

  /** The relation under the speaks_for key holds all stored edges and nothing else. */
  lemma EdgesIndexed(relations: RelationSet, at: nat)
    requires relations.Valid() && at <= |relations.items|
    requires at < |relations.items| ==> relations.items[at].key == SPEAKS_FOR_KEY
    requires at == |relations.items| ==> forall i :: 0 <= i < |relations.items| ==>
      relations.items[i].key != SPEAKS_FOR_KEY
    ensures at == |relations.items| ==> forall e :: e in relations.Db() ==> !e.SpeaksFor?
    ensures at < |relations.items| ==>
      var facts := relations.items[at].facts;
      && (forall i :: 0 <= i < |facts| ==> facts[i].atom in relations.Db() && facts[i].atom.SpeaksFor?)
      && (forall e :: e in relations.Db() && e.SpeaksFor? ==> exists k :: 0 <= k < |facts| && facts[k].atom == e)
  {
    forall e | e in relations.Db() && e.SpeaksFor?
      ensures at < |relations.items|
      ensures exists k :: 0 <= k < |relations.items[at].facts| && relations.items[at].facts[k].atom == e
    {
      var f :| Stores(relations.items, f) && f.atom == e;
      relations.KeyedIsFlat(SPEAKS_FOR_KEY, at, f);
    }
    if at < |relations.items| {
      var facts := relations.items[at].facts;
      forall i | 0 <= i < |facts|
        ensures facts[i].atom in relations.Db() && facts[i].atom.SpeaksFor?
      {
        assert Contains(relations.items[at], facts[i]) && Stores(relations.items, facts[i]);
        PlainKey(facts[i].atom);
      }
    }
  }

  /** etb_delegation_allows */
  method Check(relations: RelationSet, speaker: string, target: string, pred: string, now: nat)
    returns (allowed: bool)
    requires relations.Valid()
    ensures allowed <==> Allows(relations.Db(), speaker, target, pred, now)
  {
    ghost var cap := DepthCap(relations.items);
    allowed := Visit(relations, speaker, target, pred, now, 0, DEFAULT_BOUND, cap);
  }

  /** A finite store has a largest edge depth. */
  lemma DepthCap(rs: seq<Relation>) returns (cap: nat)
    ensures DepthsUpTo(Flat(rs), cap) && DEFAULT_BOUND <= cap
  {
    if rs == [] {
      cap := DEFAULT_BOUND;
    } else {
      var n := |rs| - 1;
      cap := DepthCap(rs[..n]);
      var own := FactsDepthCap(rs[n].facts);
      cap := if own > cap then own else cap;
      forall f | Stores(rs, f) && f.atom.SpeaksFor?
        ensures f.atom.maxDepth <= cap
      {
        var i :| 0 <= i < |rs| && Contains(rs[i], f);
        if i < n {
          assert Contains(rs[..n][i], f);
          assert Stores(rs[..n], f);
          assert f.atom in Flat(rs[..n]);
        }
      }
    }
  }

  lemma FactsDepthCap(fs: seq<Fact>) returns (cap: nat)
    ensures forall i :: 0 <= i < |fs| && fs[i].atom.SpeaksFor? ==> fs[i].atom.maxDepth <= cap
  {
    cap := 0;
    for i := 0 to |fs|
      invariant forall k :: 0 <= k < i && fs[k].atom.SpeaksFor? ==> fs[k].atom.maxDepth <= cap
    {
      if fs[i].atom.SpeaksFor? && fs[i].atom.maxDepth > cap {
        cap := fs[i].atom.maxDepth;
      }
    }
  }

  /** More edges never take a delegation away, and a later clock never adds one. */
  lemma AllowsMonotone(facts: iset<Atom>, more: iset<Atom>, speaker: string, target: string, pred: string, now: nat,
                       earlier: nat)
    requires facts <= more && earlier <= now && Allows(facts, speaker, target, pred, now)
    ensures Allows(more, speaker, target, pred, earlier)
  {
    var p :| Witness(facts, p, speaker, target, pred, now, 0, DEFAULT_BOUND);
    assert Witness(more, p, speaker, target, pred, earlier, 0, DEFAULT_BOUND);
  }

  /** A delegation survives the loss of every edge outside one of its paths. */
  lemma AllowsCompact(facts: iset<Atom>, speaker: string, target: string, pred: string, now: nat) returns (p: seq<Atom>)
    requires Allows(facts, speaker, target, pred, now)
    ensures forall i :: 0 <= i < |p| ==> p[i] in facts && p[i].SpeaksFor?
    ensures forall few: iset<Atom> :: (forall i :: 0 <= i < |p| ==> p[i] in few) ==>
      Allows(few, speaker, target, pred, now)
  {
    p :| Witness(facts, p, speaker, target, pred, now, 0, DEFAULT_BOUND);
    forall few: iset<Atom> | forall i :: 0 <= i < |p| ==> p[i] in few
      ensures Allows(few, speaker, target, pred, now)
    {
      assert Witness(few, p, speaker, target, pred, now, 0, DEFAULT_BOUND);
    }
  }

  // ---------- What single edges and their bounds mean ----------

  /** A scope admits exactly the predicates that begin with its text; no scope, and the star, admit all. */
  lemma ScopeIsPrefix(scope: Option<string>, pred: string)
    ensures ScopeAllows(scope, pred) <==>
      scope == None || scope == Some("*") || exists rest :: pred == scope.value + rest
  {
    if scope.Some? && scope.value <= pred {
      assert pred == scope.value + pred[|scope.value|..];
    }
  }

  /** An edge is usable up to and including the time at which it expires; zero stands for never. */
  lemma LiveUntilExpiry(e: Atom, now: nat)
    requires e.SpeaksFor?
    ensures e.expiresAt == 0 ==> Live(e, now)
    ensures e.expiresAt > 0 ==> Live(e, e.expiresAt) && !Live(e, e.expiresAt + 1)
    ensures forall later: nat :: now <= later && Live(e, later) ==> Live(e, now)
  {
  }

  ghost function Edge(k: string, d: string, scope: string, expires: nat, depth: nat): Atom {
    SpeaksFor(k, d, Some(scope), expires, depth, Untimed)
  }

  /**
   * Two edges in a row with one scope that is not the star: what the first principal says counts for
   * the last one exactly when the predicate begins with the scope and the edges have not expired.
   */
  lemma TwoEdgesAllow(k: string, m: string, d: string, scope: string, expires: nat, depth: nat, pred: string, now: nat)
    requires k != m && k != d && m != d && scope != "*"
    ensures Allows(iset{Edge(k, m, scope, expires, depth), Edge(m, d, scope, expires, depth)}, k, d, pred, now) <==>
      (exists rest :: pred == scope + rest) && (expires == 0 || now <= expires)
  {
    var e, f := Edge(k, m, scope, expires, depth), Edge(m, d, scope, expires, depth);
    var facts := iset{e, f};
    ScopeIsPrefix(Some(scope), pred);
    if UsableEdge(e, pred, now) {
      var p := [e, f];
      assert BoundAt(p, 8, 0) == 8 && BoundAt(p, 8, 1) >= 1;
      assert Path(facts, p, k, d, pred, now);
      assert Witness(facts, p, k, d, pred, now, 0, 8);
    }
    if Allows(facts, k, d, pred, now) {
      var p :| Witness(facts, p, k, d, pred, now, 0, 8);
      assert p != [] && UsableEdge(p[0], pred, now);
    }
  }

  /** A scope admits what begins with it over both edges, not other predicates, and nothing after expiry. */
  lemma PrefixScopeInForce()
    ensures var facts := iset{Edge("alice", "manager", "appr", 100, 2), Edge("manager", "bank", "appr", 100, 2)};
      && Allows(facts, "alice", "bank", "approve", 100)
      && !Allows(facts, "alice", "bank", "audit", 100)
      && !Allows(facts, "alice", "bank", "approve", 101)
  {
    assert "approve" == "appr" + "ove";
    TwoEdgesAllow("alice", "manager", "bank", "appr", 100, 2, "approve", 100);
    TwoEdgesAllow("alice", "manager", "bank", "appr", 100, 2, "approve", 101);
    TwoEdgesAllow("alice", "manager", "bank", "appr", 100, 2, "audit", 100);
    forall rest
      ensures "audit" != "appr" + rest
    {
      assert ("appr" + rest)[1] == 'p' && "audit"[1] == 'u';
    }
  }

  /** The bound in force is the depth of the last edge passed that has one, larger or smaller than before. */
  lemma {:induction false} LastDepthRules(p: seq<Atom>, start: nat, k: nat, i: nat)
    requires k < i <= |p| && forall j :: 0 <= j < |p| ==> p[j].SpeaksFor?
    requires p[k].maxDepth != 0 && forall j :: k < j < i ==> p[j].maxDepth == 0
    ensures BoundAt(p, start, i) == p[k].maxDepth
  {
    if k < i - 1 {
      LastDepthRules(p, start, k, i - 1);
    }
  }

  lemma {:induction false} BoundUniform(p: seq<Atom>, start: nat, i: nat, depth: nat)
    requires i <= |p| && forall k :: 0 <= k < |p| ==> p[k].SpeaksFor? && p[k].maxDepth == depth
    ensures BoundAt(p, start, i) == if i == 0 || depth == 0 then start else depth
  {
    if i > 0 {
      BoundUniform(p, start, i - 1, depth);
    }
  }

  /** Edges that all carry one depth compose to chains of one hop more; without a depth, to nine hops, not eight. */
  lemma UniformDepthHops(facts: iset<Atom>, speaker: string, target: string, pred: string, now: nat, depth: nat)
    requires forall e :: e in facts && e.SpeaksFor? ==> e.maxDepth == depth
    ensures Allows(facts, speaker, target, pred, now) <==>
      exists p :: Path(facts, p, speaker, target, pred, now) && |p| <= if depth == 0 then 9 else depth + 1
  {
    var most := if depth == 0 then 9 else depth + 1;
    forall p | Path(facts, p, speaker, target, pred, now)
      ensures WithinBounds(p, 0, 8) <==> |p| <= most
    {
      forall i | 0 <= i <= |p|
        ensures BoundAt(p, 8, i) == if i == 0 || depth == 0 then 8 else depth
      {
        BoundUniform(p, 8, i, depth);
      }
      if |p| > most {
        assert !(0 + most <= BoundAt(p, 8, most));
      }
    }
    if Allows(facts, speaker, target, pred, now) {
      var p :| Witness(facts, p, speaker, target, pred, now, 0, 8);
      assert Path(facts, p, speaker, target, pred, now);
    }
    if exists p :: Path(facts, p, speaker, target, pred, now) && |p| <= most {
      var p :| Path(facts, p, speaker, target, pred, now) && |p| <= most;
      assert Witness(facts, p, speaker, target, pred, now, 0, 8);
    }
  }
}
