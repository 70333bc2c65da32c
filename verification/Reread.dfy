/** What the parser makes of printed text that was not meant for it (src/core/canon.c, src/core/parser.c). */
module Reread {
  import opened Syntax
  import opened Decimal
  import opened Canon
  import opened Parser
  import opened RoundTrip

  predicate OneLine(t: string) {
    forall i :: 0 <= i < |t| ==> t[i] != '\n' && t[i] != '\0'
  }

  // ---------- A comment at the end of a text without quotes ----------

  /** `f` is `s` with a comment behind it. */
  predicate Commented(s: string, f: string) {
    QuoteFree(s) && |s| < |f| && f[..|s|] == s && f[|s|] == '#' && OneLine(f[|s|..])
  }

  /** The same token at the same place, or the end of either text. */
  predicate Same(s: string, f: string, x: Scan, y: Scan) {
    x.current == y.current &&
    if x.current == Eof then x.offset == |s| && y.offset in {|s|, |f|} else x.offset == y.offset <= |s|
  }

  predicate SameScan(s: string, f: string, x: Option<Scan>, y: Option<Scan>) {
    x.Some? == y.Some? && (x.Some? ==> Same(s, f, x.value, y.value))
  }

  predicate SameParsed<T(==)>(s: string, f: string, x: Option<Parsed<T>>, y: Option<Parsed<T>>) {
    x.Some? == y.Some? && (x.Some? ==> x.value.value == y.value.value && Same(s, f, x.value.rest, y.value.rest))
  }

  lemma SameChar(s: string, f: string, i: nat)
    requires Commented(s, f) && i <= |s|
    ensures i < |s| ==> CharAt(f, i) == CharAt(s, i) == s[i] && s[i] != '"' && s[i] != '\0'
    ensures i == |s| ==> CharAt(f, i) == '#' && CharAt(s, i) == '\0'
  {
  }

  lemma {:induction false} CommentRunsOut(s: string, f: string, o: nat)
    requires Commented(s, f) && |s| <= o <= |f|
    ensures CommentEnd(f, o) == |f|
    decreases |f| - o
  {
    if o < |f| {
      assert f[o] == f[|s|..][o - |s|];
      CommentRunsOut(s, f, o + 1);
    }
  }

  lemma {:induction false} CommentSame(s: string, f: string, o: nat)
    requires Commented(s, f) && o <= |s|
    ensures if CommentEnd(s, o) < |s| then CommentEnd(f, o) == CommentEnd(s, o) else CommentEnd(f, o) == |f|
    ensures CommentEnd(s, o) <= |s|
    decreases |s| - o
  {
    SameChar(s, f, o);
    if o == |s| {
      CommentRunsOut(s, f, o);
    } else if s[o] != '\n' {
      CommentSame(s, f, o + 1);
    }
  }

  lemma {:induction false} SkipSame(s: string, f: string, o: nat)
    requires Commented(s, f) && o <= |s|
    ensures SkipSpace(s, o) <= |s|
    ensures if SkipSpace(s, o) < |s| then SkipSpace(f, o) == SkipSpace(s, o) else SkipSpace(f, o) == |f|
    decreases |s| - o
  {
    SameChar(s, f, o);
    if o == |s| {
      CommentRunsOut(s, f, o + 1);
    } else if s[o] == '#' {
      CommentSame(s, f, o + 1);
      SkipSame(s, f, CommentEnd(s, o + 1));
    } else if IsSpace(s[o]) {
      SkipSame(s, f, o + 1);
    }
  }

  lemma {:induction false} RunsSame(s: string, f: string, o: nat)
    requires Commented(s, f) && o <= |s|
    ensures IdentEnd(f, o) == IdentEnd(s, o) <= |s| && DigitEnd(f, o) == DigitEnd(s, o) <= |s|
    decreases |s| - o
  {
    SameChar(s, f, o);
    if o < |s| {
      RunsSame(s, f, o + 1);
    }
  }

  lemma TokenSame(s: string, f: string, p: nat)
    requires Commented(s, f) && p < |s|
    ensures TokenAt(f, p) == TokenAt(s, p)
    ensures TokenAt(s, p).Some? ==> TokenAt(s, p).value.current != Eof && TokenAt(s, p).value.offset <= |s|
  {
    hide Commented, IdentEnd, DigitEnd, QuoteEnd, Saturated;
    SameChar(s, f, p);
    SameChar(s, f, p + 1);
    RunsSame(s, f, p);
    CommentedPrefix(s, f);
    assert f[p..IdentEnd(s, p)] == s[p..IdentEnd(s, p)];
    assert f[p..DigitEnd(s, p)] == s[p..DigitEnd(s, p)];
  }

  lemma CommentedPrefix(s: string, f: string)
    requires Commented(s, f)
    ensures |s| < |f| && f[..|s|] == s
  {
  }

  lemma AdvanceSame(s: string, f: string, o: nat)
    requires Commented(s, f) && o <= |s|
    ensures SameScan(s, f, Advance(s, o), Advance(f, o))
  {
    hide Commented, TokenAt, SkipSpace;
    SkipSame(s, f, o);
    var p := SkipSpace(s, o);
    if p < |s| {
      TokenSame(s, f, p);
    } else {
      CommentedPrefix(s, f);
      EndToken(s);
      EndToken(f);
    }
  }

  lemma EndToken(s: string)
    ensures TokenAt(s, |s|) == Some(Scan(|s|, Eof))
  {
  }

  lemma AdvanceFrom(s: string, f: string, x: Scan, y: Scan)
    requires Commented(s, f) && Same(s, f, x, y)
    ensures x.offset <= |s| && y.offset <= |f| && SameScan(s, f, Advance(s, x.offset), Advance(f, y.offset))
  {
    if y.offset == |f| {
      ReadEnd(s);
      ReadEnd(f);
    } else {
      AdvanceSame(s, f, x.offset);
    }
  }

  lemma {:induction false} AttributesSame(s: string, f: string, x: Scan, y: Scan, at: Attributes)
    requires Commented(s, f) && Same(s, f, x, y) && x.offset <= |s| && y.offset <= |f|
    ensures SameParsed(s, f, ParseAttributes(s, x, at), ParseAttributes(f, y, at))
    decreases Left(s, x)
  {
    hide Advance, SetAttribute, Commented;
    AdvanceFrom(s, f, x, y);
    if x.current.Ident? && Advance(s, x.offset).Some? {
      var x1, y1 := Advance(s, x.offset).value, Advance(f, y.offset).value;
      AdvanceFrom(s, f, x1, y1);
      if x1.current == Equal && Advance(s, x1.offset).Some? {
        var x2, y2 := Advance(s, x1.offset).value, Advance(f, y1.offset).value;
        AdvanceFrom(s, f, x2, y2);
        if Advance(s, x2.offset).Some? {
          var x3, y3 := Advance(s, x2.offset).value, Advance(f, y2.offset).value;
          AdvanceFrom(s, f, x3, y3);
          if x3.current == Comma && Advance(s, x3.offset).Some? {
            AttributesSame(s, f, Advance(s, x3.offset).value, Advance(f, y3.offset).value,
                           SetAttribute(at, x.current.text, x2.current));
          }
        }
      }
    }
  }

  lemma BlockSame(s: string, f: string, x: Scan, y: Scan)
    requires Commented(s, f) && Same(s, f, x, y) && x.offset <= |s| && y.offset <= |f|
    ensures SameParsed(s, f, ParseAttrBlock(s, x), ParseAttrBlock(f, y))
  {
    hide Advance, Commented, ParseAttributes;
    AdvanceFrom(s, f, x, y);
    if x.current == LBracket && Advance(s, x.offset).Some? {
      AttributesSame(s, f, Advance(s, x.offset).value, Advance(f, y.offset).value, Attributes(None, 0, 0));
    }
  }

  lemma EndSame(s: string, f: string, x: Parsed<Atom>, y: Parsed<Atom>)
    requires Commented(s, f) && SameParsed(s, f, Some(x), Some(y))
    ensures x.rest.offset <= |s| && y.rest.offset <= |f| && SameRest(s, f, ParseWhen(s, x), ParseWhen(f, y))
  {
    hide Advance, Commented, ParseEnd;
    AdvanceFrom(s, f, x.rest, y.rest);
    if (x.rest.current == At || x.rest.current == Ident("at")) && Advance(s, x.rest.offset).Some? {
      var x1, y1 := Advance(s, x.rest.offset).value, Advance(f, y.rest.offset).value;
      AdvanceFrom(s, f, x1, y1);
    }
    if ParseWhen(s, x).Some? {
      CloseSame(s, f, ParseWhen(s, x).value, ParseWhen(f, y).value);
    }
  }

  predicate SameRest(s: string, f: string, x: Option<Parsed<Atom>>, y: Option<Parsed<Atom>>) {
    x.Some? == y.Some? && (x.Some? ==> ParseEnd(s, x.value) == ParseEnd(f, y.value))
  }

  lemma CloseSame(s: string, f: string, x: Parsed<Atom>, y: Parsed<Atom>)
    requires Commented(s, f) && SameParsed(s, f, Some(x), Some(y))
    ensures ParseEnd(s, x) == ParseEnd(f, y)
  {
    hide Advance, Commented;
    AdvanceFrom(s, f, x.rest, y.rest);
  }

  // ---------- Text that reaches no end ----------

  /** A character that starts no token stands at `n`, and no comment in front of it runs past it. */
  ghost predicate Blocked(f: string, n: nat) {
    && n < |f| && QuoteFree(f[..n]) && f[n] == '|'
    && forall i :: 0 <= i < n && f[i] == '#' ==> LineEnds(f, i, n)
  }

  ghost predicate LineEnds(f: string, i: nat, n: nat) {
    exists j :: i < j < n <= |f| && f[j] == '\n'
  }

  lemma {:induction false} CommentStops(f: string, o: nat, n: nat, j: nat)
    requires Blocked(f, n) && o <= j < n && f[j] == '\n'
    ensures o <= CommentEnd(f, o) <= j
    decreases j - o
  {
    if o < j && f[o] != '\n' {
      assert f[o] == f[..n][o];
      CommentStops(f, o + 1, n, j);
    }
  }

  lemma {:induction false} SkipStops(f: string, o: nat, n: nat)
    requires Blocked(f, n) && o <= n
    ensures o <= SkipSpace(f, o) <= n
    decreases n - o
  {
    if o < n {
      if f[o] == '#' {
        assert LineEnds(f, o, n);
        var j :| o < j < n && f[j] == '\n';
        CommentStops(f, o + 1, n, j);
        SkipStops(f, CommentEnd(f, o + 1), n);
      } else if IsSpace(f[o]) {
        SkipStops(f, o + 1, n);
      }
    }
  }

  lemma {:induction false} RunsStop(f: string, o: nat, n: nat)
    requires Blocked(f, n) && o <= n
    ensures IdentEnd(f, o) <= n && DigitEnd(f, o) <= n
    decreases n - o
  {
    if o < n {
      RunsStop(f, o + 1, n);
    }
  }

  /** Neither the end of the text nor anything behind the blocking character. */
  predicate Short(n: nat, x: Option<Scan>) {
    x.Some? ==> x.value.current != Eof && x.value.offset <= n
  }

  lemma AdvanceStops(f: string, o: nat, n: nat)
    requires Blocked(f, n) && o <= n
    ensures Short(n, Advance(f, o))
  {
    SkipStops(f, o, n);
    var p := SkipSpace(f, o);
    RunsStop(f, p, n);
    if p < n {
      assert f[p] == f[..n][p];
      if p + 1 < n {
        assert f[p + 1] == f[..n][p + 1];
      }
    }
  }

  lemma {:induction false} AttributesStop(f: string, st: Scan, at: Attributes, n: nat)
    requires Blocked(f, n) && st.offset <= n
    ensures var r := ParseAttributes(f, st, at); r.Some? ==> Short(n, Some(r.value.rest))
    decreases Left(f, st)
  {
    hide Advance, SetAttribute, Blocked;
    BlockedWithin(f, n);
    AdvanceStops(f, st.offset, n);
    if st.current.Ident? && Advance(f, st.offset).Some? {
      var x1 := Advance(f, st.offset).value;
      AdvanceStops(f, x1.offset, n);
      if x1.current == Equal && Advance(f, x1.offset).Some? {
        var x2 := Advance(f, x1.offset).value;
        AdvanceStops(f, x2.offset, n);
        if Advance(f, x2.offset).Some? {
          var x3 := Advance(f, x2.offset).value;
          AdvanceStops(f, x3.offset, n);
          if x3.current == Comma && Advance(f, x3.offset).Some? {
            AttributesStop(f, Advance(f, x3.offset).value, SetAttribute(at, st.current.text, x2.current), n);
          }
        }
      }
    }
  }

  lemma EndStops(f: string, core: Parsed<Atom>, n: nat)
    requires Blocked(f, n) && Short(n, Some(core.rest))
    ensures core.rest.offset <= |f|
    ensures var r := ParseWhen(f, core); r.Some? ==> ParseEnd(f, r.value).None?
  {
    hide Advance, Blocked;
    BlockedWithin(f, n);
    AdvanceStops(f, core.rest.offset, n);
    if (core.rest.current == At || core.rest.current == Ident("at")) && Advance(f, core.rest.offset).Some? {
      AdvanceStops(f, Advance(f, core.rest.offset).value.offset, n);
    }
    var r := ParseWhen(f, core);
    if r.Some? {
      AdvanceStops(f, r.value.rest.offset, n);
    }
  }

  lemma BlockedWithin(f: string, n: nat)
    requires Blocked(f, n)
    ensures n < |f|
  {
  }

  // ---------- Delegations ----------

  function Front(k: string, d: string): string {
    k + " speaks_for " + d + "["
  }

  function ScopeText(a: Atom): string
    requires a.SpeaksFor?
  {
    if a.scope.None? then "*" else a.scope.value
  }

  function Bounds(a: Atom): string
    requires a.SpeaksFor?
  {
    "|" + (ToDecimal(a.expiresAt) + "|" + ToDecimal(a.maxDepth) + "]")
  }

  lemma DelegationText(a: Atom)
    requires a.SpeaksFor?
    ensures AtomText(a) == Front(a.principal, a.delegate) + (ScopeText(a) + Bounds(a))
  {
    hide ToDecimal;
    BlockText(a.principal + " speaks_for " + a.delegate + "[", ScopeText(a), ToDecimal(a.expiresAt),
              ToDecimal(a.maxDepth));
  }

  lemma BlockText(front: string, scope: string, expires: string, depth: string)
    ensures front + scope + "|" + expires + "|" + depth + "]" == front + (scope + ("|" + (expires + "|" + depth + "]")))
  {
  }

  /** What is left of parsing an atom once its core is read. */
  function Ended(s: string, core: Parsed<Atom>): Option<Atom>
    requires core.rest.offset <= |s|
  {
    var w := ParseWhen(s, core);
    if w.None? then None else ParseEnd(s, w.value)
  }

  function Delegated(k: string, d: string, b: Parsed<Attributes>): Parsed<Atom> {
    Parsed(SpeaksFor(k, d, b.value.scope, b.value.expires, b.value.depth, Untimed), b.rest)
  }

  /** A text that begins like a printed delegation is read by its bracketed block. */
  lemma DelegationParse(s: string, k: string, d: string, x: string)
    requires LexName(k) && LexName(d) && s == Front(k, d) + x
    ensures var b := ParseAttrBlock(s, Scan(|Front(k, d)|, LBracket));
      ParseText(s) == if b.None? then None else Ended(s, Delegated(k, d, b.value))
  {
    hide Advance, LexName, ParseAttrBlock, ParseEnd, ParseWhen, IdentChar;
    DelegationNames(s, k, d, x);
  }

  lemma DelegationNames(s: string, k: string, d: string, x: string)
    requires LexName(k) && LexName(d) && s == Front(k, d) + x
    ensures Advance(s, 0) == Some(Scan(|k|, Ident(k)))
    ensures Advance(s, |k|) == Some(Scan(|k| + 11, Ident("speaks_for")))
    ensures Advance(s, |k| + 11) == Some(Scan(|k| + 12 + |d|, Ident(d)))
    ensures Advance(s, |k| + 12 + |d|) == Some(Scan(|Front(k, d)|, LBracket)) && From(s, |Front(k, d)|, x)
  {
    hide Advance, LexName, From, IdentChar;
    SpeaksForRead(s, k, d, x);
    ReadBracket(s, |k| + 12 + |d|, x);
  }

  lemma SpeaksForRead(s: string, k: string, d: string, x: string)
    requires LexName(k) && LexName(d) && s == Front(k, d) + x
    ensures Advance(s, 0) == Some(Scan(|k|, Ident(k)))
    ensures Advance(s, |k|) == Some(Scan(|k| + 11, Ident("speaks_for")))
    ensures Advance(s, |k| + 11) == Some(Scan(|k| + 12 + |d|, Ident(d))) && From(s, |k| + 12 + |d|, "[" + x)
  {
    hide Advance, LexName;
    var block := "[" + x;
    var behind := " " + (d + block);
    FrontText(k, d, x);
    assert s[0..] == s;
    assert !IdentChar(CharAt(block, 0));
    Keywords(d + block);
    Keywords("speaks_for" + behind);
    StepName(s, 0, k, " " + ("speaks_for" + behind));
    StepBlankName(s, |k|, "speaks_for", behind);
    StepBlankName(s, |k| + 11, d, block);
  }

  lemma ReadBracket(s: string, o: nat, x: string)
    requires From(s, o, "[" + x)
    ensures Advance(s, o) == Some(Scan(o + 1, LBracket)) && From(s, o + 1, x)
  {
    hide Advance;
    ReadSingle(s, o, '[', x);
    Drop(s, o, "[", x);
  }

  lemma FrontText(k: string, d: string, x: string)
    ensures Front(k, d) + x == k + (" " + ("speaks_for" + (" " + (d + ("[" + x)))))
  {
    assert " speaks_for " == " " + "speaks_for" + " ";
  }

  lemma FrontChars(k: string, d: string)
    requires LexName(k) && LexName(d)
    ensures QuoteFree(Front(k, d)) && forall i :: 0 <= i < |Front(k, d)| ==> Front(k, d)[i] != '#'
  {
    var word := " speaks_for ";
    assert QuoteFree(word) && forall i :: 0 <= i < |word| ==> word[i] != '#';
    forall i | 0 <= i < |Front(k, d)|
      ensures var c := Front(k, d)[i]; c != '"' && c != '\0' && c != '#'
    {
      if i < |k| {
        assert Front(k, d)[i] == k[i];
      } else if i < |k| + 12 {
        assert Front(k, d)[i] == word[i - |k|];
      } else if i < |k| + 12 + |d| {
        assert Front(k, d)[i] == d[i - |k| - 12];
      }
    }
  }

  /** The comment that begins at `i` runs to the end of the text. */
  predicate RunsOut(x: string, i: nat) {
    i < |x| && x[i] == '#' && OneLine(x[i..])
  }

  lemma CommentedBlockReads(k: string, d: string, x: string, i: nat)
    requires LexName(k) && LexName(d) && RunsOut(x, i) && QuoteFree(x[..i])
    ensures ParseText(Front(k, d) + x) == ParseText(Front(k, d) + x[..i])
  {
    hide ParseText, LexName, ParseAttrBlock, Front, ParseWhen, ParseEnd;
    var s, f := Front(k, d) + x[..i], Front(k, d) + x;
    var st := Scan(|Front(k, d)|, LBracket);
    FrontChars(k, d);
    assert f[..|s|] == s && f[|s|..] == x[i..];
    DelegationParse(s, k, d, x[..i]);
    DelegationParse(f, k, d, x);
    BlockSame(s, f, st, st);
    var b, c := ParseAttrBlock(s, st), ParseAttrBlock(f, st);
    if b.Some? {
      EndSame(s, f, Delegated(k, d, b.value), Delegated(k, d, c.value));
    }
  }

  lemma BlockedBlockFails(k: string, d: string, x: string, n: nat)
    requires LexName(k) && LexName(d) && n < |x| && x[n] == '|' && QuoteFree(x[..n])
    requires forall i :: 0 <= i < n && x[i] == '#' ==> LineEnds(x, i, n)
    ensures ParseText(Front(k, d) + x) == None
  {
    hide ParseText, LexName, ParseAttributes, Front, ParseWhen, ParseEnd, Advance, Blocked;
    var f, m := Front(k, d) + x, |Front(k, d)|;
    FrontBlocked(k, d, x, n);
    DelegationParse(f, k, d, x);
    AdvanceStops(f, m, m + n);
    BlockedWithin(f, m + n);
    if Advance(f, m).Some? {
      AttributesStop(f, Advance(f, m).value, Attributes(None, 0, 0), m + n);
    }
    var b := ParseAttrBlock(f, Scan(m, LBracket));
    if b.Some? {
      EndStops(f, Delegated(k, d, b.value), m + n);
    }
  }

  lemma FrontBlocked(k: string, d: string, x: string, n: nat)
    requires LexName(k) && LexName(d) && n < |x| && x[n] == '|' && QuoteFree(x[..n])
    requires forall i :: 0 <= i < n && x[i] == '#' ==> LineEnds(x, i, n)
    ensures Blocked(Front(k, d) + x, |Front(k, d)| + n)
  {
    hide LexName, Front;
    FrontChars(k, d);
    var m := |Front(k, d)|;
    var f := Front(k, d) + x;
    assert f[..m + n] == Front(k, d) + x[..n];
    forall i | 0 <= i < m + n && f[i] == '#'
      ensures LineEnds(f, i, m + n)
    {
      assert x[i - m] == '#';
      var j :| i - m < j < n && x[j] == '\n';
      assert f[m + j] == '\n';
    }
  }

  /**
   * The canonical text of a delegation, exactly: it is rejected unless the scope has a comment that
   * runs to its end, and then it reads as what stands in front of that comment.
   */
  lemma DelegationReads(a: Atom)
    requires a.SpeaksFor? && Shaped(a)
    ensures forall i: nat :: RunsOut(ScopeText(a), i) ==>
      ParseText(AtomText(a)) == ParseText(Front(a.principal, a.delegate) + ScopeText(a)[..i])
    ensures (forall i: nat :: !RunsOut(ScopeText(a), i)) ==> ParseText(AtomText(a)) == None
  {
    hide ParseText, LexName, Front, ToDecimal, AtomText;
    var k, d, scope, x := a.principal, a.delegate, ScopeText(a), ScopeText(a) + Bounds(a);
    DelegationText(a);
    BoundsChars(a);
    forall i: nat | RunsOut(scope, i)
      ensures ParseText(AtomText(a)) == ParseText(Front(k, d) + scope[..i])
    {
      assert x[i..] == scope[i..] + Bounds(a) && x[..i] == scope[..i];
      CommentedBlockReads(k, d, x, i);
    }
    if forall i: nat :: !RunsOut(scope, i) {
      var n := |scope|;
      assert x[..n] == scope;
      forall i | 0 <= i < n && x[i] == '#'
        ensures LineEnds(x, i, n)
      {
        assert !RunsOut(scope, i);
        var j :| 0 <= j < |scope[i..]| && (scope[i..][j] == '\n' || scope[i..][j] == '\0');
        assert x[i + j] == scope[i + j] == scope[i..][j];
      }
      BlockedBlockFails(k, d, x, n);
    }
  }

  lemma BoundsChars(a: Atom)
    requires a.SpeaksFor?
    ensures OneLine(Bounds(a)) && Bounds(a)[0] == '|'
  {
    hide ToDecimal;
    assert OneLine(ToDecimal(a.expiresAt)) && OneLine(ToDecimal(a.maxDepth));
  }

  // ---------- No delegation reads back as itself ----------

  predicate PlainScope(scope: Option<string>) {
    scope.Some? ==> forall i :: 0 <= i < |scope.value| ==> scope.value[i] != '#'
  }

  lemma NoQuotes(s: string, o: nat)
    requires QuoteFree(s)
    ensures Advance(s, o).Some? ==> !Advance(s, o).value.current.Quoted? && ParsedToken(Advance(s, o).value.current)
  {
    TokensParsed(s, o);
    var p := SkipSpace(s, o);
    assert CharAt(s, p) != '"';
  }

  lemma {:induction false} UnquotedScope(s: string, st: Scan, at: Attributes)
    requires QuoteFree(s) && st.offset <= |s| && !st.current.Quoted? && ParsedToken(st.current) && PlainScope(at.scope)
    ensures var r := ParseAttributes(s, st, at); r.Some? ==> PlainScope(r.value.value.scope)
    decreases Left(s, st)
  {
    hide Advance, QuoteFree, Digital;
    var eq := Advance(s, st.offset);
    if st.current.Ident? && eq.Some? {
      var v := Expect(s, eq.value, Equal);
      if v.Some? && Advance(s, v.value.offset).Some? {
        NoQuotes(s, eq.value.offset);
        var after := Advance(s, v.value.offset).value;
        var next := Advance(s, after.offset);
        if after.current == Comma && next.Some? {
          NoQuotes(s, after.offset);
          UnquotedScope(s, next.value, SetAttribute(at, st.current.text, v.value.current));
        }
      }
    }
  }

  /** Whatever a delegation's text reads as, it is not the delegation that was printed. */
  lemma DelegationLost(a: Atom)
    requires a.SpeaksFor? && Shaped(a)
    ensures ParseText(AtomText(a)) != Some(a)
  {
    hide ParseText, LexName, Front, AtomText, ParseAttributes, Advance;
    DelegationReads(a);
    if i: nat :| RunsOut(ScopeText(a), i) {
      var k, d, x := a.principal, a.delegate, ScopeText(a)[..i];
      var s := Front(k, d) + x;
      FrontChars(k, d);
      DelegationParse(s, k, d, x);
      NoQuotes(s, |Front(k, d)|);
      var first := Advance(s, |Front(k, d)|);
      if first.Some? {
        UnquotedScope(s, first.value, Attributes(None, 0, 0));
      }
      assert !PlainScope(a.scope);
    }
  }

  /** A delegation with one attribute. */
  lemma OneAttribute(s: string, k: string, d: string, key: string, v: string, tok: Token)
    requires LexName(k) && LexName(d) && LexName(key) && s == Front(k, d) + (key + ("=" + (v + "]")))
    requires Advance(s, |Front(k, d)| + |key| + 1) == Some(Scan(|s| - 1, tok))
    ensures var at := SetAttribute(Attributes(None, 0, 0), key, tok);
      ParseText(s) == Some(SpeaksFor(k, d, at.scope, at.expires, at.depth, Untimed))
  {
    hide Advance, LexName, Front, SetAttribute;
    var o := |Front(k, d)|;
    DelegationParse(s, k, d, key + ("=" + (v + "]")));
    assert From(s, o, key + ("=" + (v + "]")));
    StepName(s, o, key, "=" + (v + "]"));
    ReadSingle(s, o + |key|, '=', v + "]");
    Drop(s, o + |key|, "=", v + "]");
    Drop(s, o + |key| + 1, v, "]");
    assert "]" + "" == "]";
    ReadSingle(s, |s| - 1, ']', "");
    ReadEnd(s);
  }

  /** A quoted scope that reads as another delegation: its scope is gone and a depth has appeared. */
  lemma ScopeBecomesDepth()
    ensures var a := SpeaksFor("k", "d", Some("depth=9]#"), 0, 0, Untimed);
      ParseText("k speaks_for d[scope=\"depth=9]#\"]") == Some(a) &&
      ParseText(AtomText(a)) == Some(SpeaksFor("k", "d", None, 0, 9, Untimed))
  {
    hide ParseText, AtomText;
    var a := SpeaksFor("k", "d", Some("depth=9]#"), 0, 0, Untimed);
    DelegationReads(a);
    assert RunsOut(ScopeText(a), 8);
    assert ScopeText(a)[..8] == "depth=9]";
    DepthReads();
    ScopeReads();
  }

  lemma DepthReads()
    ensures ParseText(Front("k", "d") + "depth=9]") == Some(SpeaksFor("k", "d", None, 0, 9, Untimed))
  {
    hide ParseText, Advance;
    var s := Front("k", "d") + "depth=9]";
    assert s[21..] == "9" + "]";
    ReadDigits(s, 21, "9", "]");
    assert "depth=9]" == "depth" + ("=" + ("9" + "]"));
    OneAttribute(s, "k", "d", "depth", "9", Digits("9", 9));
  }

  lemma ScopeReads()
    ensures ParseText("k speaks_for d[scope=\"depth=9]#\"]") ==
      Some(SpeaksFor("k", "d", Some("depth=9]#"), 0, 0, Untimed))
  {
    hide Advance, ParseText, Front, Ahead, LexName, QuoteFree;
    var v := "\"depth=9]#\"";
    var s := "k speaks_for d[scope=\"depth=9]#\"]";
    ScopePieces();
    ReadQuoted(s, 21, "depth=9]#", "]");
    OneAttribute(s, "k", "d", "scope", v, Quoted("depth=9]#"));
  }

  lemma ScopePieces()
    ensures var s, v := "k speaks_for d[scope=\"depth=9]#\"]", "\"depth=9]#\"";
      Ahead(s, 21, "\"" + "depth=9]#" + "\"", "]") && s == Front("k", "d") + ("scope" + ("=" + (v + "]"))) && |s| == 33
    ensures |Front("k", "d")| == 15 && LexName("k") && LexName("d") && LexName("scope") && QuoteFree("depth=9]#")
  {
    hide Front;
    FrontKD();
    var s, v := "k speaks_for d[scope=\"depth=9]#\"]", "\"depth=9]#\"";
    assert s == "k speaks_for d[" + "scope" + "=" + v + "]";
    assert s[21..] == v + "]" && v == "\"" + "depth=9]#" + "\"";
  }

  lemma FrontKD()
    ensures Front("k", "d") == "k speaks_for d["
  {
  }

  // ---------- Says predicates that were quoted ----------

  predicate Opens(c: char) {
    c == '(' || c == ','
  }

  predicate Closes(c: char) {
    c == ',' || c == ')'
  }

  /** Each quote begins a string behind a bracket or comma, or ends one in front of a comma or bracket. */
  predicate Framed(t: string) {
    forall i :: 0 <= i < |t| && t[i] == '"' ==> 0 < i < |t| - 1 && (Opens(t[i - 1]) || Closes(t[i + 1]))
  }

  lemma TermQuotes(t: Term)
    requires ParsedTerm(t)
    ensures forall i :: 0 <= i < |TermText(t)| && TermText(t)[i] == '"' ==> t.Str? && i in {0, |TermText(t)| - 1}
  {
    hide ToDecimal;
    match t {
      case Str(y) =>
        assert forall i :: 0 < i <= |y| ==> TermText(t)[i] == y[i - 1];
      case Symbol(y) =>
        assert forall i :: 0 <= i < |y| ==> IdentChar(y[i]);
      case Variable(y) =>
        assert forall i :: 0 <= i < |y| ==> IdentChar(y[i]);
        assert forall i :: 0 < i <= |y| ==> TermText(t)[i] == y[i - 1];
      case Integer(n) =>
        assert forall i :: 0 <= i < |ToDecimal(n)| ==> IsDigit(ToDecimal(n)[i]);
      case Null =>
    }
  }

  lemma TermFramed(c: char, t: Term, d: char)
    requires Opens(c) && Closes(d) && ParsedTerm(t)
    ensures Framed([c] + TermText(t) + [d])
  {
    hide TermText, ParsedTerm;
    TermQuotes(t);
    var x := [c] + TermText(t) + [d];
    forall i | 0 <= i < |x| && x[i] == '"'
      ensures 0 < i < |x| - 1 && (Opens(x[i - 1]) || Closes(x[i + 1]))
    {
      assert 0 < i <= |TermText(t)| && TermText(t)[i - 1] == '"';
    }
  }

  lemma FramedJoin(a: string, m: char, b: string)
    requires Framed(a + [m]) && Framed([m] + b) && m != '"'
    ensures Framed(a + [m] + b)
  {
    var x := a + [m] + b;
    forall i | 0 <= i < |x| && x[i] == '"'
      ensures 0 < i < |x| - 1 && (Opens(x[i - 1]) || Closes(x[i + 1]))
    {
      if i < |a| {
        assert (a + [m])[i] == '"' && (a + [m])[i + 1] == x[i + 1];
        assert i > 0 ==> (a + [m])[i - 1] == x[i - 1];
      } else {
        var y := [m] + b;
        assert y[i - |a|] == '"';
        assert y[i - |a| - 1] == x[i - 1];
        assert i - |a| + 1 < |y| && y[i - |a| + 1] == x[i + 1];
      }
    }
  }

  lemma {:induction false} ArgsFramed(c: char, ts: seq<Term>)
    requires Opens(c) && AllParsed(ts) && ts != []
    ensures Framed([c] + ArgsText(ts) + ")")
    decreases |ts|
  {
    hide TermText, Framed, ParsedTerm;
    if |ts| == 1 {
      TermFramed(c, ts[0], ')');
    } else {
      TermFramed(c, ts[0], ',');
      ArgsFramed(',', ts[1..]);
      assert [','] + (ArgsText(ts[1..]) + ")") == [','] + ArgsText(ts[1..]) + ")";
      FramedJoin([c] + TermText(ts[0]), ',', ArgsText(ts[1..]) + ")");
      assert [c] + ArgsText(ts) + ")" == [c] + TermText(ts[0]) + [','] + (ArgsText(ts[1..]) + ")");
    }
  }

  lemma ListFramed(ts: seq<Term>)
    requires AllParsed(ts)
    ensures Framed(ListText(ts))
  {
    hide ArgsText, ParsedTerm;
    if ts != [] {
      ArgsFramed('(', ts);
    }
  }

  lemma {:induction false} CommentEndChar(s: string, o: nat)
    ensures CharAt(s, CommentEnd(s, o)) == '\0' || CharAt(s, CommentEnd(s, o)) == '\n'
    decreases |s| - o
  {
    if CharAt(s, o) != '\0' && CharAt(s, o) != '\n' {
      CommentEndChar(s, o + 1);
    }
  }

  /** Where the scanner has skipped something, a blank stands right in front of the token. */
  lemma {:induction false} SkipBehindSpace(s: string, o: nat)
    ensures var p := SkipSpace(s, o); p == o || CharAt(s, p) == '\0' || (o < p && IsSpace(CharAt(s, p - 1)))
    decreases |s| - o
  {
    if CharAt(s, o) == '#' {
      var e := CommentEnd(s, o + 1);
      CommentEndChar(s, o + 1);
      if CharAt(s, e) == '\n' {
        assert SkipSpace(s, e) == SkipSpace(s, e + 1);
        SkipBehindSpace(s, e + 1);
      }
    } else if IsSpace(CharAt(s, o)) {
      SkipBehindSpace(s, o + 1);
    }
  }

  /** A quoted token in place of the predicate name begins behind the end of a string argument. */
  lemma QuotedBegins(a: Atom)
    requires a.Says? && LexName(a.principal) && QuoteFree(a.pred) && AllParsed(a.terms)
    ensures var s, o := AtomText(a), |a.principal| + 5;
      Advance(s, o).Some? && Advance(s, o).value.current.Quoted? ==>
        var x := Advance(s, o).value.current.text; x != "" && Closes(x[0])
  {
    hide AtomText, LexName, ParsedTerm, Framed, ListText, WhenText;
    var s, o := AtomText(a), |a.principal| + 5;
    SaysHead(a);
    var p := SkipSpace(s, o);
    SkipBehindSpace(s, o);
    assert s[o] == s[o..][0] == ' ';
    if CharAt(s, p) == '"' {
      QuoteInList(a, p);
      assert s[p + 1] != '"' && QuoteEnd(s, p + 1) > p + 1;
    }
  }

  /** Behind the keyword, quotes stand in the argument list only. */
  lemma QuoteInList(a: Atom, p: nat)
    requires a.Says? && LexName(a.principal) && QuoteFree(a.pred) && AllParsed(a.terms)
    requires |a.principal| + 5 < p < |AtomText(a)| && AtomText(a)[p] == '"' && IsSpace(AtomText(a)[p - 1])
    ensures p + 1 < |AtomText(a)| && Closes(AtomText(a)[p + 1])
  {
    hide LexName, ParsedTerm, ListText, AtomText, WhenText;
    SaysHead(a);
    WhenChars(a.when);
    ListFramed(a.terms);
    QuoteFound(AtomText(a), |a.principal| + 5, a.pred, ListText(a.terms), WhenText(a.when), p);
  }

  lemma QuoteFound(s: string, n: nat, name: string, list: string, w: string, p: nat)
    requires From(s, n, " " + (name + (list + w))) && QuoteFree(name) && QuoteFree(w) && Framed(list)
    requires n < p < |s| && s[p] == '"' && IsSpace(s[p - 1])
    ensures p + 1 < |s| && Closes(s[p + 1])
  {
    var t := " " + (name + (list + w));
    var i, m := p - n, 1 + |name|;
    assert forall j :: 0 <= j < |t| ==> s[n + j] == s[n..][j] == t[j];
    assert forall j :: 0 < j < m ==> t[j] == name[j - 1];
    assert forall j :: m + |list| <= j < |t| ==> t[j] == w[j - m - |list|];
    assert t[0] == ' ';
    assert m <= i < m + |list|;
    assert list[i - m] == t[i] == '"';
    assert list[i - m - 1] == t[i - 1] && list[i - m + 1] == t[i + 1];
  }

  lemma WhenChars(w: Temporal)
    ensures QuoteFree(WhenText(w))
  {
    hide ToDecimal;
    if !w.Untimed? {
      assert forall i :: 0 <= i < |ToDecimal(w.time)| ==> IsDigit(ToDecimal(w.time)[i]);
    }
  }

  /** A quoted predicate name whose printed comment swallows the arguments: another goal is read. */
  lemma QuotedNameChangesGoal()
    ensures var a := Says("k", "p#", [Variable("X")], Untimed);
      ParseText("k says \"p#\"(X)") == Some(a) && ParseText(AtomText(a)) == Some(Says("k", "p", [], Untimed))
  {
    hide ParseText, AtomText;
    QuotedNameReads();
    CutNameReads();
  }

  /** A full stop behind an atom is read past. */
  lemma FullStopIsRead(p: string)
    requires LexName(p)
    ensures ParseText(p + ".") == Some(Predicate(p, [], Untimed))
  {
    hide Advance, LexName;
    var s := p + ".";
    assert s[0..] == p + "." && "." + "" == ".";
    StepName(s, 0, p, ".");
    ReadSingle(s, |p|, '.', "");
    ReadEnd(s);
  }

  /** A numeric predicate name is printed as it was read. */
  lemma NumericNameReads()
    ensures var a := Says("k", "12", [], Untimed); ParseText(AtomText(a)) == Some(a)
  {
    hide ParseText, AtomText;
    PrintableReads(Says("k", "12", [], Untimed));
  }

  /** A negative integer is printed as a name: it is read as the symbol of that text. */
  lemma NegativeReadsAsSymbol(p: string, n: int)
    requires LexName(p) && n < 0
    ensures ParseText(AtomText(Predicate(p, [Integer(n)], Untimed))) ==
      Some(Predicate(p, [Symbol("-" + ToDecimal(-n))], Untimed))
  {
    hide ParseText;
    var x := "-" + ToDecimal(-n);
    assert LexName(x) && x != "null" by {
      MinusName(ToDecimal(-n));
    }
    assert TermText(Integer(n)) == x == TermText(Symbol(x));
    PrintableReads(Predicate(p, [Symbol(x)], Untimed));
  }

  lemma MinusName(ds: string)
    requires AllDigits(ds)
    ensures LexName("-" + ds)
  {
  }

  lemma QuotedNameReads()
    ensures ParseText("k says \"p#\"(X)") == Some(Says("k", "p#", [Variable("X")], Untimed))
  {
    hide Advance, ParseText;
    var s := "k says \"p#\"(X)";
    QuotedNameFront();
    QuotedNameBack();
    OneArgumentSays(s, 1, "k", 6, 11, Quoted("p#"), 12, 13, "X", 14);
  }

  lemma QuotedNameFront()
    ensures var s := "k says \"p#\"(X)";
      && Advance(s, 0) == Some(Scan(1, Ident("k"))) && Advance(s, 1) == Some(Scan(6, Ident("says")))
      && Advance(s, 6) == Some(Scan(11, Quoted("p#")))
  {
    hide Advance, From, Ahead, LexName, QuoteFree;
    var s := "k says \"p#\"(X)";
    QuotedNamePieces();
    StepName(s, 0, "k", " says \"p#\"(X)");
    StepBlankName(s, 1, "says", " \"p#\"(X)");
    ReadBlank(s, 6, "\"p#\"(X)");
    ReadQuoted(s, 7, "p#", "(X)");
  }

  lemma QuotedNameBack()
    ensures var s := "k says \"p#\"(X)";
      && Advance(s, 11) == Some(Scan(12, LParen)) && Advance(s, 12) == Some(Scan(13, Ident("X")))
      && Advance(s, 13) == Some(Scan(14, RParen)) && Advance(s, 14) == Some(Scan(14, Eof)) && |s| == 14
  {
    hide Advance, From, Ahead, LexName;
    var s := "k says \"p#\"(X)";
    QuotedNamePieces();
    ReadSingle(s, 11, '(', "X)");
    StepName(s, 12, "X", ")");
    ReadSingle(s, 13, ')', "");
    ReadEnd(s);
  }

  lemma QuotedNamePieces()
    ensures var s := "k says \"p#\"(X)";
      && From(s, 0, "k" + " says \"p#\"(X)") && From(s, 1, " " + ("says" + " \"p#\"(X)"))
      && Ahead(s, 6, " ", "\"p#\"(X)") && Ahead(s, 7, "\"" + "p#" + "\"", "(X)") && Ahead(s, 11, "(", "X)")
      && From(s, 12, "X" + ")") && Ahead(s, 13, ")", "") && |s| == 14
    ensures LexName("k") && LexName("says") && LexName("X") && QuoteFree("p#")
  {
  }

  /** A says atom with one argument, from its tokens. */
  lemma OneArgumentSays(s: string, o1: nat, k: string, o2: nat, o3: nat, name: Token, o4: nat, o5: nat, x: string,
                        o6: nat)
    requires o1 <= |s| && o2 <= |s| && o3 <= |s| && o4 <= |s| && o5 <= |s| && o6 <= |s|
    requires Advance(s, 0) == Some(Scan(o1, Ident(k))) && Advance(s, o1) == Some(Scan(o2, Ident("says")))
    requires Advance(s, o2) == Some(Scan(o3, name)) && TokenText(name).Some? && Advance(s, o3) == Some(Scan(o4, LParen))
    requires Advance(s, o4) == Some(Scan(o5, Ident(x))) && Advance(s, o5) == Some(Scan(o6, RParen))
    requires Advance(s, o6) == Some(Scan(|s|, Eof))
    ensures ParseText(s) == Some(Says(k, TokenText(name).value, [IdentTerm(x)], Untimed))
  {
    hide Advance, IdentTerm, TokenText;
    assert ParseTerm(s, Scan(o5, Ident(x))) == Some(Parsed(IdentTerm(x), Scan(o6, RParen)));
    var none: seq<Term> := [];
    assert none + [IdentTerm(x)] == [IdentTerm(x)];
    assert ParseArgs(s, Scan(o5, Ident(x)), none) == Close(s, Scan(o6, RParen), [IdentTerm(x)]);
    assert ParseList(s, Scan(o4, LParen)) == Some(Parsed([IdentTerm(x)], Scan(|s|, Eof)));
    var core := Parsed(Says(k, TokenText(name).value, [IdentTerm(x)], Untimed), Scan(|s|, Eof));
    assert ParseSays(s, k, Scan(o2, Ident("says"))) == Some(core);
    assert ParseAtomCore(s, Scan(o1, Ident(k))) == Some(core);
  }

  lemma CutNameReads()
    ensures ParseText(AtomText(Says("k", "p#", [Variable("X")], Untimed))) == Some(Says("k", "p", [], Untimed))
  {
    hide Advance, AtomText, ParseText;
    var a := Says("k", "p#", [Variable("X")], Untimed);
    var s, f := "k says p", "k says p#(?X)";
    CutNameText();
    SaysHead(a);
    StepBlankName(f, 6, "p", "#(?X)");
    assert f[..8] == s && f[8..] == "#(?X)";
    AdvanceSame(s, f, 8);
    ReadEnd(s);
    NoArgumentSays(f, 1, "k", 6, 8, "p");
  }

  lemma CutNameText()
    ensures AtomText(Says("k", "p#", [Variable("X")], Untimed)) == "k says p#(?X)"
    ensures Tail(Says("k", "p#", [Variable("X")], Untimed)) == "(?X)"
  {
  }

  lemma NoArgumentSays(s: string, o1: nat, k: string, o2: nat, o3: nat, p: string)
    requires o1 <= |s| && o2 <= |s| && o3 <= |s|
    requires Advance(s, 0) == Some(Scan(o1, Ident(k))) && Advance(s, o1) == Some(Scan(o2, Ident("says")))
    requires Advance(s, o2) == Some(Scan(o3, Ident(p)))
    requires Advance(s, o3).Some? && Advance(s, o3).value.current == Eof
    ensures ParseText(s) == Some(Says(k, p, [], Untimed))
  {
    hide Advance;
  }

  // ---------- Which atoms read back as themselves ----------

  /** The name of a says atom that was read from a text like this one is the text of the token in its place. */
  lemma SaysToken(a: Atom)
    requires a.Says? && LexName(a.principal)
    ensures var s, o := AtomText(a), |a.principal| + 5;
      ParseText(s).Some? ==>
        && ParseText(s).value.Says? && ParseText(s).value.principal == a.principal
        && Advance(s, o).Some? && TokenText(Advance(s, o).value.current) == Some(ParseText(s).value.pred)
  {
    hide Advance, AtomText, LexName, ParseList, TokenText;
    SaysHead(a);
  }

  /** An atom read from printed text is printed as text that reads as that atom again, or as nothing. */
  lemma RereadsOnce(a: Atom)
    requires a.Says? && Shaped(a) && AllParsed(a.terms) && ParseText(AtomText(a)).Some?
    ensures var g := ParseText(AtomText(a)).value;
      && g.Says? && g.principal == a.principal
      && ParseText(AtomText(g)) == (if Printable(g) then Some(g) else None)
  {
    hide ParseText, AtomText, Advance, LexName, ParsedTerm, PrintableTerm;
    var g := ParseText(AtomText(a)).value;
    ParserOutput(AtomText(a));
    SaysToken(a);
    TokensParsed(AtomText(a), |a.principal| + 5);
    if Advance(AtomText(a), |a.principal| + 5).value.current.Quoted? {
      QuotedBegins(a);
      BracketStops(g);
      NotPrintable(g);
    } else if g.Ground() {
      GroundPrintable(g);
      PrintableReads(g);
    } else {
      VariablesDoNotRead(g);
      VariableNotPrintable(g);
    }
  }

  lemma BracketStops(a: Atom)
    requires a.Says? && LexName(a.principal) && a.pred != "" && Closes(a.pred[0])
    ensures ParseText(AtomText(a)) == None
  {
    hide Advance, AtomText, LexName, ParseText, From, TokenText, Tail;
    SaysHead(a);
    SaysToken(a);
    assert a.pred + Tail(a) == [a.pred[0]] + (a.pred[1..] + Tail(a));
    BracketToken(AtomText(a), |a.principal| + 5, a.pred[0], a.pred[1..] + Tail(a));
  }

  lemma BracketToken(s: string, o: nat, c: char, rest: string)
    requires From(s, o, " " + ([c] + rest)) && Closes(c)
    ensures Advance(s, o).Some? ==> TokenText(Advance(s, o).value.current) == None
  {
    hide Advance;
    Drop(s, o, " ", [c] + rest);
    ReadBlank(s, o, [c] + rest);
    ReadSingle(s, o + 1, c, rest);
  }

  lemma NotPrintable(a: Atom)
    requires a.Says? && a.pred != "" && Closes(a.pred[0])
    ensures !Printable(a)
  {
    assert !IdentChar(a.pred[0]) && !IsDigit(a.pred[0]);
  }

  lemma GroundPrintable(a: Atom)
    requires !a.SpeaksFor? && a.Ground() && AllParsed(a.terms)
    ensures AllPrintable(a.terms)
  {
    hide PrintableTerm;
  }

  lemma VariableNotPrintable(a: Atom)
    requires !a.SpeaksFor? && !a.Ground()
    ensures !Printable(a)
  {
  }

  /**
   * The exact domain of printing and reading: an atom's canonical text reads back as that atom if and
   * only if it is no delegation, its names are printed as one token each, its terms are ground and
   * printable, and its time is below 2^63. Delegations are taken as the parser yields them.
   */
  lemma ReparseExact(a: Atom)
    requires a.SpeaksFor? ==> Shaped(a)
    ensures ParseText(AtomText(a)) == Some(a) <==> Printable(a)
  {
    hide ParseText, AtomText, LexName, ParsedTerm, PrintableTerm, Shaped;
    if a.SpeaksFor? {
      DelegationLost(a);
    } else if Printable(a) {
      PrintableReads(a);
    } else if ParseText(AtomText(a)) == Some(a) {
      ParserOutput(AtomText(a));
      ReadsAsItself(a);
    }
  }

  lemma ReadsAsItself(a: Atom)
    requires !a.SpeaksFor? && Shaped(a) && AllParsed(a.terms) && PrintableWhen(a.when)
    requires ParseText(AtomText(a)) == Some(a)
    ensures Printable(a)
  {
    hide ParseText, AtomText, LexName, ParsedTerm, PrintableTerm;
    if a.Says? {
      RereadsOnce(a);
    } else if a.Ground() {
      GroundPrintable(a);
    } else {
      VariablesDoNotRead(a);
    }
  }
}
