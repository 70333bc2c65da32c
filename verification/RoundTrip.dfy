/** When the parser gives back the atom that was printed. */
module RoundTrip {
  import opened Syntax
  import opened Decimal
  import opened Canon
  import opened Parser

  /** Names the scanner reads back as one identifier. */
  predicate LexName(id: string) {
    id != [] && (forall i :: 0 <= i < |id| ==> IdentChar(id[i])) && !IsDigit(id[0]) && !(":-" <= id)
  }

  predicate QuoteFree(x: string) {
    forall i :: 0 <= i < |x| ==> x[i] != '"' && x[i] != '\0'
  }

  /** Ground terms that survive printing and parsing. */
  predicate PrintableTerm(t: Term) {
    match t
    case Symbol(x) => LexName(x) && x != "null" && !IsUpper(x[0]) && x[0] != '_'
    case Integer(n) => 0 <= n <= INT64_MAX
    case Str(x) => QuoteFree(x)
    case Null => true
    case Variable(_) => false
  }

  /** Text the scanner reads back as one number. */
  predicate Digital(p: string) {
    p != "" && AllDigits(p)
  }

  /** Terms the parser can produce. */
  predicate ParsedTerm(t: Term) {
    PrintableTerm(t) || (t.Variable? && LexName(t.name) && (IsUpper(t.name[0]) || t.name[0] == '_'))
  }

  predicate PrintableWhen(w: Temporal) {
    w.Untimed? || w.time <= INT64_MAX
  }

  /** Names that are printed as the tokens they are read from. */
  predicate Named(a: Atom) {
    match a
    case Predicate(p, _, _) => LexName(p)
    case Says(k, p, _, _) => LexName(k) && (LexName(p) || Digital(p))
    case SpeaksFor(k, d, _, _, _, _) => LexName(k) && LexName(d)
  }

  /** Names as the parser yields them: says predicates and scopes may also come from quoted strings. */
  predicate Shaped(a: Atom) {
    match a
    case Predicate(p, _, _) => LexName(p)
    case Says(k, p, _, _) => LexName(k) && QuoteFree(p)
    case SpeaksFor(k, d, scope, _, _, _) => LexName(k) && LexName(d) && (scope.Some? ==> QuoteFree(scope.value))
  }

  predicate AllPrintable(ts: seq<Term>) {
    forall i :: 0 <= i < |ts| ==> PrintableTerm(ts[i])
  }

  predicate AllParsed(ts: seq<Term>) {
    forall i :: 0 <= i < |ts| ==> ParsedTerm(ts[i])
  }

  predicate Printable(a: Atom) {
    !a.SpeaksFor? && Named(a) && AllPrintable(a.terms) && PrintableWhen(a.when)
  }

  // ---------- Reading one token of printed text ----------

  /** `s` continues with `t` at `o`, and then with `rest`. */
  predicate Ahead(s: string, o: nat, t: string, rest: string) {
    o <= |s| && s[o..] == t + rest
  }

  lemma AheadSplit(s: string, o: nat, t: string, u: string, rest: string)
    requires Ahead(s, o, t + u, rest)
    ensures Ahead(s, o, t, u + rest) && Ahead(s, o + |t|, u, rest)
  {
    assert t + u + rest == t + (u + rest);
    assert s[o + |t|..] == s[o..][|t|..];
  }

  lemma AheadAt(s: string, o: nat, t: string, rest: string)
    requires Ahead(s, o, t, rest)
    ensures forall i :: 0 <= i < |t| ==> CharAt(s, o + i) == t[i]
    ensures CharAt(s, o + |t|) == CharAt(rest, 0)
    ensures o + |t| + |rest| == |s|
    ensures s[o..o + |t|] == t
  {
    forall i | 0 <= i < |t|
      ensures CharAt(s, o + i) == t[i]
    {
      assert s[o..][i] == (t + rest)[i];
    }
    if rest != [] {
      assert s[o..][|t|] == (t + rest)[|t|];
    }
    assert s[o..o + |t|] == s[o..][..|t|];
  }

  lemma {:induction false} IdentEndIs(s: string, o: nat, e: nat)
    requires o <= e && forall i :: o <= i < e ==> IdentChar(CharAt(s, i))
    requires !IdentChar(CharAt(s, e))
    ensures IdentEnd(s, o) == e
    decreases e - o
  {
    if o < e {
      IdentEndIs(s, o + 1, e);
    }
  }

  lemma {:induction false} DigitEndIs(s: string, o: nat, e: nat)
    requires o <= e && forall i :: o <= i < e ==> IsDigit(CharAt(s, i))
    requires !IsDigit(CharAt(s, e))
    ensures DigitEnd(s, o) == e
    decreases e - o
  {
    if o < e {
      DigitEndIs(s, o + 1, e);
    }
  }

  lemma {:induction false} QuoteEndIs(s: string, o: nat, e: nat)
    requires o <= e && forall i :: o <= i < e ==> CharAt(s, i) != '"' && CharAt(s, i) != '\0'
    requires CharAt(s, e) == '"'
    ensures QuoteEnd(s, o) == e
    decreases e - o
  {
    if o < e {
      QuoteEndIs(s, o + 1, e);
    }
  }

  lemma ColonDashStart(id: string)
    ensures ":-" <= id <==> |id| > 1 && id[0] == ':' && id[1] == '-'
  {
  }

  lemma ReadName(s: string, o: nat, id: string, rest: string)
    requires Ahead(s, o, id, rest) && LexName(id) && !IdentChar(CharAt(rest, 0))
    ensures Advance(s, o) == Some(Scan(o + |id|, Ident(id)))
  {
    AheadAt(s, o, id, rest);
    assert forall i :: o <= i < o + |id| ==> CharAt(s, i) == id[i - o];
    IdentEndIs(s, o, o + |id|);
    ColonDashStart(id);
    if |id| > 1 {
      assert CharAt(s, o + 1) == id[1];
    }
    assert CharAt(s, o) == id[0];
  }

  lemma ReadDigits(s: string, o: nat, ds: string, rest: string)
    requires Ahead(s, o, ds, rest) && ds != [] && AllDigits(ds) && !IsDigit(CharAt(rest, 0))
    ensures Advance(s, o) == Some(Scan(o + |ds|, Digits(ds, Saturated(ds))))
  {
    AheadAt(s, o, ds, rest);
    assert forall i :: o <= i < o + |ds| ==> CharAt(s, i) == ds[i - o];
    DigitEndIs(s, o, o + |ds|);
    assert CharAt(s, o) == ds[0];
  }

  lemma ReadQuoted(s: string, o: nat, x: string, rest: string)
    requires Ahead(s, o, "\"" + x + "\"", rest) && QuoteFree(x)
    ensures Advance(s, o) == Some(Scan(o + |x| + 2, Quoted(x)))
  {
    var t := "\"" + x + "\"";
    AheadAt(s, o, t, rest);
    assert t[0] == '"' && t[|x| + 1] == '"';
    forall i | o + 1 <= i < o + 1 + |x|
      ensures CharAt(s, i) == x[i - o - 1]
    {
      assert t[i - o] == x[i - o - 1];
      assert CharAt(s, o + (i - o)) == t[i - o];
    }
    assert CharAt(s, o + (|x| + 1)) == '"';
    QuoteEndIs(s, o + 1, o + 1 + |x|);
    assert CharAt(s, o + 0) == '"';
    assert s[o + 1..o + 1 + |x|] == x by {
      assert s[o..o + |t|] == t;
      assert s[o + 1..o + 1 + |x|] == t[1..|x| + 1];
    }
  }

  lemma ReadSingle(s: string, o: nat, c: char, rest: string)
    requires Ahead(s, o, [c], rest) && Single(c).Some?
    ensures Advance(s, o) == Some(Scan(o + 1, Single(c).value))
  {
    AheadAt(s, o, [c], rest);
    assert CharAt(s, o + 0) == c;
  }

  lemma ReadBlank(s: string, o: nat, rest: string)
    requires Ahead(s, o, " ", rest)
    ensures Advance(s, o) == Advance(s, o + 1)
  {
    AheadAt(s, o, " ", rest);
    assert CharAt(s, o + 0) == ' ';
  }

  lemma ReadEnd(s: string)
    ensures Advance(s, |s|) == Some(Scan(|s|, Eof))
  {
  }

  /** Characters that start no token. */
  lemma ReadStray(s: string, o: nat, c: char, rest: string)
    requires Ahead(s, o, [c], rest) && c in "?*|"
    ensures Advance(s, o) == None
  {
    AheadAt(s, o, [c], rest);
    assert CharAt(s, o + 0) == c;
  }

  lemma DecimalReads(n: nat)
    requires n <= INT64_MAX
    ensures Saturated(ToDecimal(n)) == n
  {
    DecimalRoundTrip(n);
  }

  /** Digits beyond the largest 64-bit integer are read as that integer. */
  lemma IntegersSaturate(n: nat)
    ensures Saturated(ToDecimal(n)) == if n <= 9223372036854775807 then n else 9223372036854775807
  {
    DecimalRoundTrip(n);
  }

  // ---------- Terms and argument lists ----------

  predicate Separator(c: char) {
    c == ',' || c == ')'
  }

  /** A printed term is one token that stands for the term. */
  lemma ReadTerm(s: string, o: nat, t: Term, rest: string) returns (tok: Token)
    requires Ahead(s, o, TermText(t), rest) && PrintableTerm(t) && Separator(CharAt(rest, 0))
    ensures Advance(s, o) == Some(Scan(o + |TermText(t)|, tok)) && TokenTerm(tok) == Some(t)
  {
    hide Advance, ToDecimal, FromDecimal, Saturated, Ahead;
    match t {
      case Symbol(x) =>
        ReadName(s, o, x, rest);
        tok := Ident(x);
      case Integer(n) =>
        ReadDigits(s, o, ToDecimal(n), rest);
        DecimalReads(n);
        tok := Digits(ToDecimal(n), n);
      case Str(x) =>
        ReadQuoted(s, o, x, rest);
        tok := Quoted(x);
      case Null =>
        ReadName(s, o, "null", rest);
        tok := Ident("null");
    }
  }

  /** What the argument loop makes of a printed list, starting at its first token. */
  function ArgsFrom(s: string, o: nat, acc: seq<Term>): Option<Parsed<seq<Term>>>
    requires o <= |s|
  {
    var first := Advance(s, o);
    if first.None? then None else ParseArgs(s, first.value, acc)
  }

  function Finish<T>(s: string, o: nat, v: T): Option<Parsed<T>> {
    var next := Advance(s, o);
    if next.None? then None else Some(Parsed(v, next.value))
  }

  /** One argument and the comma behind it. */
  lemma ArgStep(s: string, o: nat, tok: Token, o1: nat, o2: nat, t: Term, acc: seq<Term>)
    requires o <= |s| && o1 <= |s| && o2 <= |s|
    requires Advance(s, o) == Some(Scan(o1, tok)) && TokenTerm(tok) == Some(t)
    requires Advance(s, o1) == Some(Scan(o2, Comma))
    ensures ArgsFrom(s, o, acc) == ArgsFrom(s, o2, acc + [t])
  {
    hide Advance;
  }

  lemma {:induction false} ReadArgs(s: string, o: nat, ts: seq<Term>, acc: seq<Term>, rest: string)
    requires ts != [] && AllPrintable(ts) && Ahead(s, o, ArgsText(ts) + ")", rest)
    ensures ArgsFrom(s, o, acc) == Finish(s, o + |ArgsText(ts)| + 1, acc + ts)
    decreases |ts|
  {
    hide Advance, Ahead, TermText, PrintableTerm, IdentTerm, GroundTerms;
    var t0 := TermText(ts[0]);
    if |ts| == 1 {
      AheadSplit(s, o, t0, ")", rest);
      var tok := ReadTerm(s, o, ts[0], ")" + rest);
      ReadSingle(s, o + |t0|, ')', rest);
      assert acc + [ts[0]] == acc + ts;
    } else {
      var more := ArgsText(ts[1..]) + ")";
      assert ArgsText(ts) + ")" == t0 + ("," + more);
      AheadSplit(s, o, t0, "," + more, rest);
      AheadSplit(s, o + |t0|, ",", more, rest);
      var tok := ReadTerm(s, o, ts[0], "," + more + rest);
      ReadSingle(s, o + |t0|, ',', more + rest);
      ArgStep(s, o, tok, o + |t0|, o + |t0| + 1, ts[0], acc);
      ReadArgs(s, o + |t0| + 1, ts[1..], acc + [ts[0]], rest);
      assert acc + [ts[0]] + ts[1..] == acc + ts;
    }
  }

  /** What follows the first printed argument. */
  function AfterFirst(ts: seq<Term>): string
    requires ts != []
  {
    if |ts| == 1 then ")" else "," + (ArgsText(ts[1..]) + ")")
  }

  lemma ArgsTextHead(ts: seq<Term>)
    requires ts != []
    ensures ArgsText(ts) + ")" == TermText(ts[0]) + AfterFirst(ts)
    ensures ts[0].Variable? ==> ArgsText(ts) + ")" == "?" + (ts[0].name + AfterFirst(ts))
    ensures Separator(AfterFirst(ts)[0])
  {
    hide ArgsText, TermText;
    ArgsTextStep(ts);
    if |ts| > 1 {
      Glue(TermText(ts[0]), ",", ArgsText(ts[1..]), ")");
    }
    if ts[0].Variable? {
      VariableText(ts[0]);
      Glue("?", ts[0].name, AfterFirst(ts), "");
      assert AfterFirst(ts) + "" == AfterFirst(ts);
    }
  }

  lemma VariableText(t: Term)
    requires t.Variable?
    ensures TermText(t) == "?" + t.name
  {
  }

  lemma Glue(a: string, b: string, c: string, d: string)
    ensures a + b + c + d == a + (b + (c + d))
    ensures (a + b) + (c + d) == a + (b + (c + d))
  {
  }

  lemma ArgsTextStep(ts: seq<Term>)
    requires ts != []
    ensures ArgsText(ts) == if |ts| == 1 then TermText(ts[0]) else TermText(ts[0]) + "," + ArgsText(ts[1..])
  {
  }

  /** A list with a variable in it cannot be read: no token starts with a question mark. */
  lemma {:induction false} VariableStopsArgs(s: string, o: nat, ts: seq<Term>, acc: seq<Term>, rest: string)
    requires AllParsed(ts) && !GroundTerms(ts) && Ahead(s, o, ArgsText(ts) + ")", rest)
    ensures ArgsFrom(s, o, acc).None?
    decreases |ts|
  {
    hide Advance, PrintableTerm, ParseArgs, Ahead, ArgsText, TermText, TokenTerm;
    ArgsTextHead(ts);
    if ts[0].Variable? {
      AheadSplit(s, o, "?", ts[0].name + AfterFirst(ts), rest);
      ReadStray(s, o, '?', ts[0].name + AfterFirst(ts) + rest);
    } else {
      var i :| 0 <= i < |ts| && ts[i].Variable?;
      assert ts[1..][i - 1] == ts[i];
      assert PrintableTerm(ts[0]);
      var t0 := TermText(ts[0]);
      AheadSplit(s, o, t0, AfterFirst(ts), rest);
      var tok := ReadTerm(s, o, ts[0], AfterFirst(ts) + rest);
      AheadSplit(s, o + |t0|, ",", ArgsText(ts[1..]) + ")", rest);
      ReadSingle(s, o + |t0|, ',', ArgsText(ts[1..]) + ")" + rest);
      ArgStep(s, o, tok, o + |t0|, o + |t0| + 1, ts[0], acc);
      VariableStopsArgs(s, o + |t0| + 1, ts[1..], acc + [ts[0]], rest);
    }
  }

  function ListFrom(s: string, o: nat): Option<Parsed<seq<Term>>>
    requires o <= |s|
  {
    var first := Advance(s, o);
    if first.None? then None else ParseList(s, first.value)
  }

  /** What may follow a predicate name: nothing, a list, or a temporal annotation. */
  lemma TailStarts(ts: seq<Term>, w: Temporal)
    ensures !IdentChar(CharAt(ListText(ts) + WhenText(w), 0))
  {
    if ts == [] {
      assert ListText(ts) + WhenText(w) == WhenText(w);
    }
  }

  lemma ReadList(s: string, o: nat, ts: seq<Term>, w: Temporal)
    requires Ahead(s, o, ListText(ts), WhenText(w)) && AllPrintable(ts)
    ensures ListFrom(s, o) == Finish(s, |s| - |WhenText(w)|, ts)
  {
    hide Advance, ParseArgs, ArgsText, WhenText, PrintableTerm;
    AheadAt(s, o, ListText(ts), WhenText(w));
    if ts == [] {
      assert Ahead(s, o, WhenText(w), "");
      ReadWhenStart(s, o, w);
    } else {
      assert ListText(ts) == "(" + (ArgsText(ts) + ")");
      AheadSplit(s, o, "(", ArgsText(ts) + ")", WhenText(w));
      ReadSingle(s, o, '(', ArgsText(ts) + ")" + WhenText(w));
      ReadArgs(s, o + 1, ts, [], WhenText(w));
      assert [] + ts == ts;
    }
  }

  lemma VariableStopsList(s: string, o: nat, ts: seq<Term>, rest: string)
    requires Ahead(s, o, ListText(ts), rest) && AllParsed(ts) && !GroundTerms(ts)
    ensures ListFrom(s, o).None?
  {
    hide Advance, Ahead, ParseArgs, ArgsText, PrintableTerm, ParsedTerm;
    assert ListText(ts) == "(" + (ArgsText(ts) + ")");
    AheadSplit(s, o, "(", ArgsText(ts) + ")", rest);
    ReadSingle(s, o, '(', ArgsText(ts) + ")" + rest);
    VariableStopsArgs(s, o + 1, ts, [], rest);
  }

  // ---------- Temporal annotations ----------

  /** The token an annotation starts with. */
  function WhenToken(w: Temporal): Token {
    match w
    case Untimed => Eof
    case ExpiresAt(_) => At
    case AnchoredAt(_) => Ident("at")
  }

  lemma ReadWhenStart(s: string, o: nat, w: Temporal)
    requires Ahead(s, o, WhenText(w), "")
    ensures Advance(s, o).Some? && Advance(s, o).value.current == WhenToken(w)
    ensures w.ExpiresAt? ==> Ahead(s, Advance(s, o).value.offset, ToDecimal(w.time), "")
    ensures w.AnchoredAt? ==> Ahead(s, Advance(s, o).value.offset, " " + ToDecimal(w.time), "")
    ensures w.Untimed? ==> Advance(s, o).value.offset == |s|
  {
    hide Advance, ToDecimal;
    match w {
      case Untimed =>
        assert o == |s|;
        ReadEnd(s);
      case ExpiresAt(t) =>
        AheadSplit(s, o, "@", ToDecimal(t), "");
        ReadSingle(s, o, '@', ToDecimal(t) + "");
      case AnchoredAt(t) =>
        assert WhenText(w) == " " + ("at" + (" " + ToDecimal(t)));
        AheadSplit(s, o, " ", "at" + (" " + ToDecimal(t)), "");
        ReadBlank(s, o, "at" + (" " + ToDecimal(t)) + "");
        AheadSplit(s, o + 1, "at", " " + ToDecimal(t), "");
        ReadName(s, o + 1, "at", " " + ToDecimal(t) + "");
    }
  }

  /** The number at the end of the text. */
  lemma ReadTime(s: string, o: nat, t: nat)
    requires (Ahead(s, o, ToDecimal(t), "") || Ahead(s, o, " " + ToDecimal(t), "")) && t <= INT64_MAX
    ensures Advance(s, o) == Some(Scan(|s|, Digits(ToDecimal(t), t)))
    ensures Advance(s, |s|) == Some(Scan(|s|, Eof))
  {
    hide Advance, ToDecimal, FromDecimal, Saturated, IdentChar;
    ReadEnd(s);
    DecimalReads(t);
    if Ahead(s, o, ToDecimal(t), "") {
      AheadAt(s, o, ToDecimal(t), "");
      ReadDigits(s, o, ToDecimal(t), "");
    } else {
      AheadSplit(s, o, " ", ToDecimal(t), "");
      ReadBlank(s, o, ToDecimal(t) + "");
      AheadAt(s, o + 1, ToDecimal(t), "");
      ReadDigits(s, o + 1, ToDecimal(t), "");
    }
  }

  // ---------- Whole atoms ----------

  /** What follows the principal: the atom's own part and its annotation. */
  function Tail(a: Atom): string
    requires !a.SpeaksFor?
  {
    ListText(a.terms) + WhenText(a.when)
  }

  predicate From(s: string, o: nat, t: string) {
    o <= |s| && s[o..] == t
  }

  lemma Drop(s: string, o: nat, t: string, rest: string)
    requires From(s, o, t + rest)
    ensures From(s, o + |t|, rest)
  {
    assert s[o + |t|..] == s[o..][|t|..];
  }

  lemma StepName(s: string, o: nat, id: string, rest: string)
    requires From(s, o, id + rest) && LexName(id) && !IdentChar(CharAt(rest, 0))
    ensures Advance(s, o) == Some(Scan(o + |id|, Ident(id))) && From(s, o + |id|, rest)
  {
    Drop(s, o, id, rest);
    ReadName(s, o, id, rest);
  }

  lemma StepBlankName(s: string, o: nat, id: string, rest: string)
    requires From(s, o, " " + (id + rest)) && LexName(id) && !IdentChar(CharAt(rest, 0))
    ensures Advance(s, o) == Some(Scan(o + 1 + |id|, Ident(id))) && From(s, o + 1 + |id|, rest)
  {
    Drop(s, o, " ", id + rest);
    ReadBlank(s, o, id + rest);
    StepName(s, o + 1, id, rest);
  }

  lemma Keywords(rest: string)
    ensures LexName("says") && LexName("speaks_for") && !IdentChar(CharAt(" " + rest, 0))
  {
  }

  /** After the predicate name the parser reads the list and stands at the annotation. */
  lemma ReadCore(a: Atom) returns (st: Option<Parsed<Atom>>)
    requires !a.SpeaksFor? && Named(a) && AllParsed(a.terms)
    ensures var s := AtomText(a);
      Advance(s, 0).Some? && st == ParseAtomCore(s, Advance(s, 0).value)
    ensures var s := AtomText(a);
      |WhenText(a.when)| <= |s| &&
      if GroundTerms(a.terms) then
        st == Finish(s, |s| - |WhenText(a.when)|, SetWhen(a, Untimed)) &&
        Ahead(s, |s| - |WhenText(a.when)|, WhenText(a.when), "")
      else st.None?
  {
    hide Advance, ListText, WhenText, LexName, ParseList, PrintableTerm, ParsedTerm, IdentChar, From, Ahead;
    var s := AtomText(a);
    var o := NameRead(a);
    AtTail(s, o, a.terms, a.when);
    if a.Predicate? {
      NotSays(s, o, a.terms, a.when);
    }
    st := ParseAtomCore(s, Advance(s, 0).value);
  }

  lemma TailOf(a: Atom)
    requires !a.SpeaksFor?
    ensures !IdentChar(CharAt(Tail(a), 0))
  {
    TailStarts(a.terms, a.when);
  }

  lemma TextInParts(a: Atom)
    requires !a.SpeaksFor?
    ensures a.Predicate? ==> AtomText(a) == a.pred + Tail(a)
    ensures a.Says? ==> AtomText(a) == a.principal + (" " + ("says" + (" " + (a.pred + Tail(a)))))
  {
    hide ListText, WhenText;
  }

  /** The names in front of the list, token by token. */
  lemma NameRead(a: Atom) returns (o: nat)
    requires !a.SpeaksFor? && Named(a)
    ensures var s := AtomText(a); From(s, o, Tail(a))
    ensures var s := AtomText(a);
      a.Predicate? ==> Advance(s, 0) == Some(Scan(o, Ident(a.pred)))
    ensures var s := AtomText(a);
      a.Says? ==>
        && Advance(s, 0) == Some(Scan(|a.principal|, Ident(a.principal)))
        && Advance(s, |a.principal|) == Some(Scan(|a.principal| + 5, Ident("says")))
        && Advance(s, |a.principal| + 5) == Some(Scan(o, NameToken(a.pred)))
  {
    hide Advance, ListText, WhenText, LexName, Digital, NameToken, IdentChar, AtomText, Tail;
    TailOf(a);
    if a.Predicate? {
      var s := AtomText(a);
      TextInParts(a);
      assert s[0..] == s;
      StepName(s, 0, a.pred, Tail(a));
      o := |a.pred|;
    } else {
      o := SaysNameRead(a);
    }
  }

  lemma SaysNameRead(a: Atom) returns (o: nat)
    requires a.Says? && Named(a) && !IdentChar(CharAt(Tail(a), 0))
    ensures var s := AtomText(a);
      && From(s, o, Tail(a))
      && Advance(s, 0) == Some(Scan(|a.principal|, Ident(a.principal)))
      && Advance(s, |a.principal|) == Some(Scan(|a.principal| + 5, Ident("says")))
      && Advance(s, |a.principal| + 5) == Some(Scan(o, NameToken(a.pred)))
  {
    hide Advance, LexName, Digital, NameToken, IdentChar, AtomText, Tail, From;
    SaysHead(a);
    StepBlankToken(AtomText(a), |a.principal| + 5, a.pred, Tail(a));
    o := |a.principal| + 6 + |a.pred|;
  }

  /** The token a printed says predicate is read from. */
  function NameToken(p: string): Token {
    if Digital(p) then Digits(p, Saturated(p)) else Ident(p)
  }

  lemma StepBlankToken(s: string, o: nat, p: string, rest: string)
    requires From(s, o, " " + (p + rest)) && (LexName(p) || Digital(p)) && !IdentChar(CharAt(rest, 0))
    ensures Advance(s, o) == Some(Scan(o + 1 + |p|, NameToken(p))) && From(s, o + 1 + |p|, rest)
  {
    hide Advance, Saturated;
    if Digital(p) {
      Drop(s, o, " ", p + rest);
      ReadBlank(s, o, p + rest);
      ReadDigits(s, o + 1, p, rest);
      Drop(s, o + 1, p, rest);
    } else {
      StepBlankName(s, o, p, rest);
    }
  }

  /** The principal and the keyword of a says atom, whatever its predicate name. */
  lemma SaysHead(a: Atom)
    requires a.Says? && LexName(a.principal)
    ensures var s, k := AtomText(a), a.principal;
      && Advance(s, 0) == Some(Scan(|k|, Ident(k))) && Advance(s, |k|) == Some(Scan(|k| + 5, Ident("says")))
      && From(s, |k| + 5, " " + (a.pred + Tail(a)))
  {
    hide Advance, LexName, IdentChar, AtomText, Tail;
    TextInParts(a);
    var s, k, behind := AtomText(a), a.principal, " " + (a.pred + Tail(a));
    assert s[0..] == s;
    Keywords(a.pred + Tail(a));
    Keywords("says" + behind);
    StepName(s, 0, k, " " + ("says" + behind));
    StepBlankName(s, |k|, "says", behind);
  }

  lemma AtTail(s: string, o: nat, ts: seq<Term>, w: Temporal)
    requires From(s, o, ListText(ts) + WhenText(w)) && AllParsed(ts)
    ensures if GroundTerms(ts) then ListFrom(s, o) == Finish(s, |s| - |WhenText(w)|, ts) else ListFrom(s, o).None?
    ensures |WhenText(w)| <= |s| && Ahead(s, |s| - |WhenText(w)|, WhenText(w), "")
  {
    hide Advance, ListText, WhenText, ParseList;
    Drop(s, o, ListText(ts), WhenText(w));
    assert WhenText(w) + "" == WhenText(w);
    if GroundTerms(ts) {
      ReadList(s, o, ts, w);
    } else {
      VariableStopsList(s, o, ts, WhenText(w));
    }
  }

  /** Behind a plain predicate name no says or speaks_for is read. */
  lemma NotSays(s: string, o: nat, ts: seq<Term>, w: Temporal)
    requires From(s, o, ListText(ts) + WhenText(w))
    ensures Advance(s, o).Some?
    ensures Advance(s, o).value.current != Ident("says") && Advance(s, o).value.current != Ident("speaks_for")
  {
    hide Advance, ArgsText, WhenText;
    if ts == [] {
      assert ListText(ts) + WhenText(w) == WhenText(w) + "";
      ReadWhenStart(s, o, w);
      assert |"at"| == 2;
    } else {
      var rest := ArgsText(ts) + ")" + WhenText(w);
      assert ListText(ts) + WhenText(w) == "(" + rest;
      ReadSingle(s, o, '(', rest);
    }
  }

  /** Printing then parsing gives the atom back. */
  lemma PrintableReads(a: Atom)
    requires Printable(a)
    ensures ParseText(AtomText(a)) == Some(a)
  {
    hide Advance, ParseAtomCore, ListText, ToDecimal, LexName, Ahead, AtomText;
    var s := AtomText(a);
    var st := ReadCore(a);
    var o := |s| - |WhenText(a.when)|;
    ReadWhenStart(s, o, a.when);
    if !a.when.Untimed? {
      ReadTime(s, Advance(s, o).value.offset, a.when.time);
    }
  }

  /** An atom with variables prints as text the parser rejects. */
  lemma VariablesDoNotRead(a: Atom)
    requires !a.SpeaksFor? && Named(a) && AllParsed(a.terms) && !a.Ground()
    ensures ParseText(AtomText(a)) == None
  {
    var st := ReadCore(a);
  }

  // ---------- What the parser can return ----------

  predicate ParsedToken(t: Token) {
    match t
    case Ident(x) => LexName(x)
    case Quoted(x) => QuoteFree(x)
    case Digits(x, n) => Digital(x) && n <= INT64_MAX
    case _ => true
  }

  lemma TokensParsed(s: string, o: nat)
    ensures Advance(s, o).Some? ==> ParsedToken(Advance(s, o).value.current)
  {
    var p := SkipSpace(s, o);
    var r := TokenAt(s, p);
    if r.Some? && r.value.current.Ident? {
      var id := r.value.current.text;
      assert |id| > 0 && id[0] == CharAt(s, p);
      ColonDashStart(id);
      assert |id| > 1 ==> id[1] == CharAt(s, p + 1);
    }
  }

  lemma {:induction false} ArgsParsed(s: string, st: Scan, ts: seq<Term>)
    requires st.offset <= |s| && ParsedToken(st.current) && AllParsed(ts)
    ensures var r := ParseArgs(s, st, ts); r.Some? ==> AllParsed(r.value.value) && ParsedToken(r.value.rest.current)
    decreases Left(s, st)
  {
    TokensParsed(s, st.offset);
    var t := ParseTerm(s, st);
    if st.current != RParen && t.Some? {
      TokensParsed(s, t.value.rest.offset);
      var next := Advance(s, t.value.rest.offset);
      if t.value.rest.current == Comma && next.Some? {
        ArgsParsed(s, next.value, ts + [t.value.value]);
      }
    }
  }

  lemma ListParsed(s: string, st: Scan)
    requires st.offset <= |s| && ParsedToken(st.current)
    ensures var r := ParseList(s, st); r.Some? ==> AllParsed(r.value.value) && ParsedToken(r.value.rest.current)
  {
    TokensParsed(s, st.offset);
    if st.current == LParen && Advance(s, st.offset).Some? {
      ArgsParsed(s, Advance(s, st.offset).value, []);
    }
  }

  lemma CoreParsed(s: string, st: Scan)
    requires st.offset <= |s| && ParsedToken(st.current)
    ensures var r := ParseAtomCore(s, st); r.Some? ==> AllParsed(r.value.value.Args()) && r.value.value.when == Untimed
    ensures var r := ParseAtomCore(s, st); r.Some? ==> Shaped(r.value.value)
  {
    hide Advance, ParseArgs, ParseAttributes, LexName, Digital, ParsedTerm;
    if st.current.Ident? && Advance(s, st.offset).Some? {
      TokensParsed(s, st.offset);
      var n1 := Advance(s, st.offset).value;
      if n1.current == Ident("says") {
        if Advance(s, n1.offset).Some? {
          var n2 := Advance(s, n1.offset).value;
          TokensParsed(s, n2.offset);
          TokensParsed(s, n1.offset);
          TokenTextFree(n2.current);
          if Advance(s, n2.offset).Some? {
            ListParsed(s, Advance(s, n2.offset).value);
          }
        }
      } else if n1.current == Ident("speaks_for") {
        if Advance(s, n1.offset).Some? {
          var n2 := Advance(s, n1.offset).value;
          TokensParsed(s, n1.offset);
          if Advance(s, n2.offset).Some? {
            TokensParsed(s, n2.offset);
            BlockParsed(s, Advance(s, n2.offset).value);
          }
        }
      } else {
        ListParsed(s, n1);
      }
    }
  }

  lemma TokenTextFree(t: Token)
    requires ParsedToken(t)
    ensures TokenText(t).Some? ==> QuoteFree(TokenText(t).value)
  {
  }

  lemma {:induction false} AttributesParsed(s: string, st: Scan, at: Attributes)
    requires st.offset <= |s| && ParsedToken(st.current) && (at.scope.Some? ==> QuoteFree(at.scope.value))
    ensures var r := ParseAttributes(s, st, at);
      r.Some? && r.value.value.scope.Some? ==> QuoteFree(r.value.value.scope.value)
    decreases Left(s, st)
  {
    hide Advance, QuoteFree, Digital, LexName;
    var eq := Advance(s, st.offset);
    if st.current.Ident? && eq.Some? {
      var v := Expect(s, eq.value, Equal);
      if v.Some? && Advance(s, v.value.offset).Some? {
        TokensParsed(s, eq.value.offset);
        TokenTextFree(v.value.current);
        var after := Advance(s, v.value.offset).value;
        var next := Advance(s, after.offset);
        if after.current == Comma && next.Some? {
          TokensParsed(s, after.offset);
          AttributesParsed(s, next.value, SetAttribute(at, st.current.text, v.value.current));
        }
      }
    }
  }

  lemma BlockParsed(s: string, st: Scan)
    requires st.offset <= |s| && ParsedToken(st.current)
    ensures var r := ParseAttrBlock(s, st);
      r.Some? && r.value.value.scope.Some? ==> QuoteFree(r.value.value.scope.value)
  {
    hide Advance, ParseAttributes;
    if st.current == LBracket && Advance(s, st.offset).Some? {
      TokensParsed(s, st.offset);
      AttributesParsed(s, Advance(s, st.offset).value, Attributes(None, 0, 0));
    }
  }

  /** Whatever text it reads, the parser returns terms of the readable kind and times below 2^63. */
  lemma ParserOutput(s: string)
    requires ParseText(s).Some?
    ensures var a := ParseText(s).value; AllParsed(a.Args()) && PrintableWhen(a.when)
    ensures Shaped(ParseText(s).value)
  {
    hide Advance, ParseAtomCore, ParsedTerm, LexName;
    TokensParsed(s, 0);
    var first := Advance(s, 0).value;
    CoreParsed(s, first);
    var core := ParseAtomCore(s, first).value;
    TokensParsed(s, core.rest.offset);
  }

  /** Distinct printable atoms have distinct canonical texts. */
  lemma CanonicalTextInjective(a: Atom, b: Atom)
    requires Printable(a) && Printable(b) && AtomText(a) == AtomText(b)
    ensures a == b
  {
    PrintableReads(a);
    PrintableReads(b);
  }
}
