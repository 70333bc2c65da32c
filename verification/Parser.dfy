/** The scanner and the atom parser (src/core/parser.c). */
module Parser {
  import opened Syntax
  import opened Decimal

  datatype Token =
    | Eof | Ident(text: string) | Quoted(text: string) | Digits(text: string, value: nat)
    | LParen | RParen | LBracket | RBracket | Comma | Dot | ColonDash | Slash | Equal | At

  /** The scanner between two calls: the next offset and the token read last. */
  datatype Scan = Scan(offset: nat, current: Token)

  const INT64_MAX: nat := 0x7fff_ffff_ffff_ffff

  // ---------- Characters, in the C locale ----------

  /** The character at `i`; beyond the end the terminating NUL is seen. */
  function CharAt(s: string, i: nat): char {
    if i < |s| then s[i] else '\0'
  }

  predicate IsSpace(c: char) {
    c == ' ' || 9 as char <= c <= 13 as char
  }

  predicate IsUpper(c: char) {
    'A' <= c <= 'Z'
  }

  predicate IdentChar(c: char) {
    IsUpper(c) || 'a' <= c <= 'z' || IsDigit(c) || c == '_' || c == ':' || c == '-'
  }

  /** The characters of names, blanks and capitals, listed. */
  lemma CharactersListed(c: char)
    ensures IdentChar(c) <==>
      c in "abcdefghijklmnopqrstuvwxyz" || c in "ABCDEFGHIJKLMNOPQRSTUVWXYZ" || c in "0123456789" || c in "_:-"
    ensures IsUpper(c) <==> c in "ABCDEFGHIJKLMNOPQRSTUVWXYZ"
    ensures IsSpace(c) <==> c in " \t\n\r" || c as int == 11 || c as int == 12
  {
    Letters(c);
    Capitals(c);
    assert c in "0123456789" <==> IsDigit(c);
  }

  lemma Letters(c: char)
    ensures 'a' <= c <= 'z' <==> c in "abcdefghijklmnopqrstuvwxyz"
  {
    var s := "abcdefghijklmnopqrstuvwxyz";
    assert forall i :: 0 <= i < 26 ==> s[i] as int == 'a' as int + i;
    if 'a' <= c <= 'z' {
      assert s[c as int - 'a' as int] == c;
    }
  }

  lemma Capitals(c: char)
    ensures 'A' <= c <= 'Z' <==> c in "ABCDEFGHIJKLMNOPQRSTUVWXYZ"
  {
    var s := "ABCDEFGHIJKLMNOPQRSTUVWXYZ";
    assert forall i :: 0 <= i < 26 ==> s[i] as int == 'A' as int + i;
    if 'A' <= c <= 'Z' {
      assert s[c as int - 'A' as int] == c;
    }
  }

  // ---------- Scanning ----------

  /** The end of a comment: its newline or the end of the text. */
  function CommentEnd(s: string, o: nat): (e: nat)
    ensures e >= o && (e > |s| ==> e == o)
    decreases |s| - o
  {
    if CharAt(s, o) == '\0' || CharAt(s, o) == '\n' then o else CommentEnd(s, o + 1)
  }

  function SkipSpace(s: string, o: nat): (e: nat)
    ensures e >= o && (e > |s| ==> e == o)
    decreases |s| - o
  {
    if CharAt(s, o) == '#' then SkipSpace(s, CommentEnd(s, o + 1))
    else if IsSpace(CharAt(s, o)) then SkipSpace(s, o + 1)
    else o
  }

  function IdentEnd(s: string, o: nat): (e: nat)
    ensures e >= o && (e > |s| ==> e == o)
    ensures forall i :: o <= i < e ==> i < |s| && IdentChar(s[i])
    ensures !IdentChar(CharAt(s, e))
    decreases |s| - o
  {
    if IdentChar(CharAt(s, o)) then IdentEnd(s, o + 1) else o
  }

  function DigitEnd(s: string, o: nat): (e: nat)
    ensures e >= o && (e > |s| ==> e == o)
    ensures forall i :: o <= i < e ==> i < |s| && IsDigit(s[i])
    ensures !IsDigit(CharAt(s, e))
    decreases |s| - o
  {
    if IsDigit(CharAt(s, o)) then DigitEnd(s, o + 1) else o
  }

  /** The closing quote, or the end of the text. */
  function QuoteEnd(s: string, o: nat): (e: nat)
    ensures e >= o && (e > |s| ==> e == o)
    ensures forall i :: o <= i < e ==> i < |s| && s[i] != '"' && s[i] != '\0'
    ensures CharAt(s, e) == '\0' || CharAt(s, e) == '"'
    decreases |s| - o
  {
    if CharAt(s, o) == '\0' || CharAt(s, o) == '"' then o else QuoteEnd(s, o + 1)
  }

  /** strtoll stops at the largest 64-bit integer. */
  function Saturated(digits: string): nat
    requires AllDigits(digits)
  {
    if FromDecimal(digits) <= INT64_MAX then FromDecimal(digits) else INT64_MAX
  }

  function Single(c: char): Option<Token> {
    match c
    case '(' => Some(LParen)
    case ')' => Some(RParen)
    case '[' => Some(LBracket)
    case ']' => Some(RBracket)
    case ',' => Some(Comma)
    case '.' => Some(Dot)
    case '/' => Some(Slash)
    case '=' => Some(Equal)
    case '@' => Some(At)
    case _ => None
  }

  /** The token at `o`, which is not a space, and the offset behind it. */
  function TokenAt(s: string, o: nat): (r: Option<Scan>)
    ensures r.Some? ==> r.value.offset >= o && (r.value.current == Eof <==> r.value.offset == o)
    ensures r.Some? && o <= |s| ==> r.value.offset <= |s|
  {
    var c := CharAt(s, o);
    if c == '\0' then Some(Scan(o, Eof))
    else if Single(c).Some? then Some(Scan(o + 1, Single(c).value))
    else if c == ':' && CharAt(s, o + 1) == '-' then Some(Scan(o + 2, ColonDash))
    else if c == '"' then
      var e := QuoteEnd(s, o + 1);
      if CharAt(s, e) == '"' then Some(Scan(e + 1, Quoted(s[o + 1..e]))) else None
    else if IsDigit(c) then
      var e := DigitEnd(s, o);
      Some(Scan(e, Digits(s[o..e], Saturated(s[o..e]))))
    else if IdentChar(c) then
      var e := IdentEnd(s, o);
      Some(Scan(e, Ident(s[o..e])))
    else None
  }

  function Advance(s: string, o: nat): (r: Option<Scan>)
    ensures r.Some? ==> r.value.offset >= o && (r.value.current != Eof ==> r.value.offset > o)
    ensures r.Some? && o <= |s| ==> r.value.offset <= |s|
  {
    TokenAt(s, SkipSpace(s, o))
  }

  /** Text still to be read, plus one for the token in hand: what every parsing step uses up. */
  function Left(s: string, st: Scan): int {
    |s| - st.offset + (if st.current == Eof then 0 else 1)
  }

  function Expect(s: string, st: Scan, t: Token): Option<Scan> {
    if st.current == t then Advance(s, st.offset) else None
  }

  // ---------- Terms and argument lists ----------

  datatype Parsed<T> = Parsed(value: T, rest: Scan)

  function IdentTerm(text: string): Term {
    if text == "null" then Null
    else if text != [] && (IsUpper(text[0]) || text[0] == '_') then Variable(text)
    else Symbol(text)
  }

  function TokenTerm(t: Token): Option<Term> {
    match t
    case Digits(_, value) => Some(Integer(value))
    case Quoted(text) => Some(Str(text))
    case Ident(text) => Some(IdentTerm(text))
    case _ => None
  }

  function ParseTerm(s: string, st: Scan): (r: Option<Parsed<Term>>)
    ensures r.Some? && st.offset <= |s| ==> r.value.rest.offset <= |s| && Left(s, r.value.rest) < Left(s, st)
  {
    if TokenTerm(st.current).None? then None
    else
      var next := Advance(s, st.offset);
      if next.None? then None else Some(Parsed(TokenTerm(st.current).value, next.value))
  }

  /** Terms up to the closing parenthesis, which is read past; a comma before it is accepted. */
  function ParseArgs(s: string, st: Scan, ts: seq<Term>): (r: Option<Parsed<seq<Term>>>)
    requires st.offset <= |s|
    ensures r.Some? ==> r.value.rest.offset <= |s| && Left(s, r.value.rest) <= Left(s, st)
    decreases Left(s, st)
  {
    if st.current == RParen then Close(s, st, ts)
    else
      var t := ParseTerm(s, st);
      if t.None? then None
      else if t.value.rest.current == Comma then
        var next := Advance(s, t.value.rest.offset);
        if next.None? then None else ParseArgs(s, next.value, ts + [t.value.value])
      else Close(s, t.value.rest, ts + [t.value.value])
  }

  function Close(s: string, st: Scan, ts: seq<Term>): (r: Option<Parsed<seq<Term>>>)
    ensures r.Some? && st.offset <= |s| ==> r.value.rest.offset <= |s| && Left(s, r.value.rest) <= Left(s, st)
  {
    var next := Expect(s, st, RParen);
    if next.None? then None else Some(Parsed(ts, next.value))
  }

  /** An argument list, if there is one. */
  function ParseList(s: string, st: Scan): (r: Option<Parsed<seq<Term>>>)
    requires st.offset <= |s|
    ensures r.Some? ==> r.value.rest.offset <= |s|
  {
    if st.current != LParen then Some(Parsed([], st))
    else
      var next := Advance(s, st.offset);
      if next.None? then None else ParseArgs(s, next.value, [])
  }

  // ---------- Delegation attributes ----------

  datatype Attributes = Attributes(scope: Option<string>, expires: nat, depth: nat)

  function SetAttribute(at: Attributes, key: string, v: Token): Attributes {
    if key == "scope" && (v.Ident? || v.Quoted?) then at.(scope := Some(v.text))
    else if key == "expires" && v.Digits? then at.(expires := v.value)
    else if key == "depth" && v.Digits? then at.(depth := v.value % 0x1_0000_0000)
    else at
  }

  function ParseAttributes(s: string, st: Scan, at: Attributes): (r: Option<Parsed<Attributes>>)
    requires st.offset <= |s|
    ensures r.Some? ==> r.value.rest.offset <= |s|
    decreases Left(s, st)
  {
    if st.current == RBracket then CloseAttributes(s, st, at)
    else if !st.current.Ident? then None
    else
      var eq := Advance(s, st.offset);
      if eq.None? then None
      else
        var v := Expect(s, eq.value, Equal);
        if v.None? then None
        else
          var after := Advance(s, v.value.offset);
          if after.None? then None
          else
            var at' := SetAttribute(at, st.current.text, v.value.current);
            if after.value.current == Comma then
              var next := Advance(s, after.value.offset);
              if next.None? then None else ParseAttributes(s, next.value, at')
            else CloseAttributes(s, after.value, at')
  }

  function CloseAttributes(s: string, st: Scan, at: Attributes): (r: Option<Parsed<Attributes>>)
    ensures r.Some? && st.offset <= |s| ==> r.value.rest.offset <= |s|
  {
    var next := Expect(s, st, RBracket);
    if next.None? then None else Some(Parsed(at, next.value))
  }

  function ParseAttrBlock(s: string, st: Scan): (r: Option<Parsed<Attributes>>)
    requires st.offset <= |s|
    ensures r.Some? ==> r.value.rest.offset <= |s|
  {
    var none := Attributes(None, 0, 0);
    if st.current != LBracket then Some(Parsed(none, st))
    else
      var next := Advance(s, st.offset);
      if next.None? then None else ParseAttributes(s, next.value, none)
  }

  // ---------- Atoms ----------

  /** The text a token carries; the predicate of a says atom may be any token with text. */
  function TokenText(t: Token): Option<string> {
    match t
    case Ident(text) => Some(text)
    case Quoted(text) => Some(text)
    case Digits(text, _) => Some(text)
    case _ => None
  }

  function ParseSays(s: string, principal: string, st: Scan): (r: Option<Parsed<Atom>>)
    requires st.offset <= |s|
    ensures r.Some? ==> r.value.rest.offset <= |s|
  {
    var at := Advance(s, st.offset);
    if at.None? || TokenText(at.value.current).None? then None
    else
      var next := Advance(s, at.value.offset);
      if next.None? then None
      else
        var args := ParseList(s, next.value);
        if args.None? then None
        else
          Some(Parsed(Says(principal, TokenText(at.value.current).value, args.value.value, Untimed), args.value.rest))
  }

  function ParseSpeaksFor(s: string, principal: string, st: Scan): (r: Option<Parsed<Atom>>)
    requires st.offset <= |s|
    ensures r.Some? ==> r.value.rest.offset <= |s|
  {
    var at := Advance(s, st.offset);
    if at.None? || !at.value.current.Ident? then None
    else
      var next := Advance(s, at.value.offset);
      if next.None? then None
      else
        var block := ParseAttrBlock(s, next.value);
        if block.None? then None
        else
          var v := block.value.value;
          Some(Parsed(SpeaksFor(principal, at.value.current.text, v.scope, v.expires, v.depth, Untimed),
                      block.value.rest))
  }

  function ParseAtomCore(s: string, st: Scan): (r: Option<Parsed<Atom>>)
    requires st.offset <= |s|
    ensures r.Some? ==> r.value.rest.offset <= |s|
  {
    if !st.current.Ident? then None
    else
      var next := Advance(s, st.offset);
      if next.None? then None
      else if next.value.current == Ident("says") then ParseSays(s, st.current.text, next.value)
      else if next.value.current == Ident("speaks_for") then ParseSpeaksFor(s, st.current.text, next.value)
      else
        var args := ParseList(s, next.value);
        if args.None? then None
        else Some(Parsed(Predicate(st.current.text, args.value.value, Untimed), args.value.rest))
  }

  function SetWhen(a: Atom, w: Temporal): Atom {
    a.(when := w)
  }

  function ParseAtom(s: string, st: Scan): (r: Option<Parsed<Atom>>)
    requires st.offset <= |s|
    ensures r.Some? ==> r.value.rest.offset <= |s|
  {
    var core := ParseAtomCore(s, st);
    if core.None? then None else ParseWhen(s, core.value)
  }

  /** The annotation behind an atom, if there is one. */
  function ParseWhen(s: string, core: Parsed<Atom>): (r: Option<Parsed<Atom>>)
    requires core.rest.offset <= |s|
    ensures r.Some? ==> r.value.rest.offset <= |s|
  {
    if core.rest.current == At || core.rest.current == Ident("at") then
      var n := Advance(s, core.rest.offset);
      if n.None? || !n.value.current.Digits? then None
      else
        var next := Advance(s, n.value.offset);
        if next.None? then None
        else
          var time := n.value.current.value;
          var w := if core.rest.current == At then ExpiresAt(time) else AnchoredAt(time);
          Some(Parsed(SetWhen(core.value, w), next.value))
    else Some(core)
  }

  /** One atom, an optional full stop, and nothing else. */
  function ParseText(s: string): Option<Atom> {
    var first := Advance(s, 0);
    if first.None? then None
    else
      var a := ParseAtom(s, first.value);
      if a.None? then None else ParseEnd(s, a.value)
  }

  function ParseEnd(s: string, a: Parsed<Atom>): Option<Atom> {
    var end := if a.rest.current == Dot then Advance(s, a.rest.offset) else Some(a.rest);
    if end.None? || end.value.current != Eof then None else Some(a.value)
  }

  // ---------- The scanner and parser as they run ----------

  class Scanner {
    const source: string
    var offset: nat
    var current: Token

    constructor (source: string)
      ensures this.source == source && offset == 0 && current == Eof
    {
      this.source := source;
      offset, current := 0, Eof;
    }

    ghost function State(): Scan
      reads this
    {
      Scan(offset, current)
    }

    ghost predicate Valid()
      reads this
    {
      offset <= |source|
    }

    /** etb_scanner_skip_space */
    method SkipBlanks()
      requires Valid()
      modifies this`offset
      ensures Valid() && offset == SkipSpace(source, old(offset))
    {
      while true
        invariant Valid() && SkipSpace(source, offset) == SkipSpace(source, old(offset))
        decreases |source| - offset
      {
        var c := CharAt(source, offset);
        if c == '#' {
          ghost var start := offset;
          offset := offset + 1;
          while CharAt(source, offset) != '\0' && CharAt(source, offset) != '\n'
            invariant Valid() && start < offset
            invariant CommentEnd(source, offset) == CommentEnd(source, start + 1)
            decreases |source| - offset
          {
            offset := offset + 1;
          }
          continue;
        }
        if !IsSpace(c) {
          break;
        }
        offset := offset + 1;
      }
    }

    method ScanWhileIdent()
      requires Valid()
      modifies this`offset
      ensures Valid() && offset == IdentEnd(source, old(offset))
    {
      while IdentChar(CharAt(source, offset))
        invariant Valid() && IdentEnd(source, offset) == IdentEnd(source, old(offset))
        decreases |source| - offset
      {
        offset := offset + 1;
      }
    }

    method ScanWhileDigit()
      requires Valid()
      modifies this`offset
      ensures Valid() && offset == DigitEnd(source, old(offset))
    {
      while IsDigit(CharAt(source, offset))
        invariant Valid() && DigitEnd(source, offset) == DigitEnd(source, old(offset))
        decreases |source| - offset
      {
        offset := offset + 1;
      }
    }

    method ScanToQuote()
      requires Valid()
      modifies this`offset
      ensures Valid() && offset == QuoteEnd(source, old(offset))
    {
      while CharAt(source, offset) != '\0' && CharAt(source, offset) != '"'
        invariant Valid() && QuoteEnd(source, offset) == QuoteEnd(source, old(offset))
        decreases |source| - offset
      {
        offset := offset + 1;
      }
    }

    /** etb_scanner_advance */
    method Next() returns (ok: bool)
      requires Valid()
      modifies this
      ensures Valid()
      ensures ok <==> Advance(source, old(offset)).Some?
      ensures ok ==> State() == Advance(source, old(offset)).value
    {
      ok := true;
      current := Eof;
      SkipBlanks();
      var start := offset;
      var c := CharAt(source, offset);
      if c == '\0' {
        return;
      }
      var single := SingleToken(c);
      if single.Some? {
        current, offset := single.value, offset + 1;
        return;
      }
      if c == ':' && CharAt(source, offset + 1) == '-' {
        current, offset := ColonDash, offset + 2;
        return;
      }
      if c == '"' {
        offset := offset + 1;
        ScanToQuote();
        if CharAt(source, offset) != '"' {
          return false;
        }
        current := Quoted(source[start + 1..offset]);
        offset := offset + 1;
        return;
      }
      if IsDigit(c) {
        ScanWhileDigit();
        current := Digits(source[start..offset], Saturated(source[start..offset]));
        return;
      }
      if IdentChar(c) {
        ScanWhileIdent();
        current := Ident(source[start..offset]);
        return;
      }
      ok := false;
    }

    /** The tokens of one character (source lines 105-149). */
    method SingleToken(c: char) returns (t: Option<Token>)
      ensures t == Single(c)
    {
      if c == '(' {
        return Some(LParen);
      }
      if c == ')' {
        return Some(RParen);
      }
      if c == '[' {
        return Some(LBracket);
      }
      if c == ']' {
        return Some(RBracket);
      }
      if c == ',' {
        return Some(Comma);
      }
      if c == '.' {
        return Some(Dot);
      }
      if c == '/' {
        return Some(Slash);
      }
      if c == '=' {
        return Some(Equal);
      }
      if c == '@' {
        return Some(At);
      }
      t := None;
    }

    /** etb_parse_term */
    method Term() returns (ok: bool, t: Term)
      requires Valid()
      modifies this
      ensures Valid()
      ensures ok <==> ParseTerm(source, old(State())).Some?
      ensures ok ==> ParseTerm(source, old(State())).value == Parsed(t, State())
    {
      t := Null;
      match current
      case Digits(_, value) =>
        t := Integer(value);
        ok := Next();
      case Quoted(text) =>
        t := Str(text);
        ok := Next();
      case Ident(text) =>
        t := IdentTerm(text);
        ok := Next();
      case _ =>
        ok := false;
    }

    /** The loop over arguments (source lines 337-351 and 407-422). */
    method Arguments() returns (ok: bool, ts: seq<Term>)
      requires Valid()
      modifies this
      ensures Valid()
      ensures ok <==> ParseArgs(source, old(State()), []).Some?
      ensures ok ==> ParseArgs(source, old(State()), []).value == Parsed(ts, State())
    {
      ts := [];
      while current != RParen
        invariant Valid()
        invariant ParseArgs(source, State(), ts) == ParseArgs(source, old(State()), [])
        decreases Left(source, State())
      {
        var t;
        ghost var here := State();
        ok, t := Term();
        if !ok {
          return;
        }
        ts := ts + [t];
        if current != Comma {
          if current != RParen {
            return false, ts;
          }
          ok := Next();
          return;
        }
        ok := Next();
        if !ok {
          return;
        }
      }
      ok := Next();
    }

    method ArgumentList() returns (ok: bool, ts: seq<Term>)
      requires Valid()
      modifies this
      ensures Valid()
      ensures ok <==> ParseList(source, old(State())).Some?
      ensures ok ==> ParseList(source, old(State())).value == Parsed(ts, State())
    {
      if current != LParen {
        return true, [];
      }
      ts := [];
      ok := Next();
      if ok {
        ok, ts := Arguments();
      }
    }

    /** etb_parse_attr_block, for an atom */
    method AttributeBlock() returns (ok: bool, at: Attributes)
      requires Valid()
      modifies this
      ensures Valid()
      ensures ok <==> ParseAttrBlock(source, old(State())).Some?
      ensures ok ==> ParseAttrBlock(source, old(State())).value == Parsed(at, State())
    {
      hide Advance, SetAttribute;
      at := Attributes(None, 0, 0);
      if current != LBracket {
        return true, at;
      }
      ok := Next();
      if !ok {
        return;
      }
      ghost var start := State();
      while current != RBracket
        invariant Valid()
        invariant ParseAttributes(source, State(), at) == ParseAttributes(source, start, Attributes(None, 0, 0))
        decreases Left(source, State())
      {
        if !current.Ident? {
          return false, at;
        }
        var key := current.text;
        ok := Next();
        if !ok || current != Equal {
          return false, at;
        }
        ok := Next();
        if !ok {
          return;
        }
        at := SetAttribute(at, key, current);
        ok := Next();
        if !ok {
          return;
        }
        if current != Comma {
          if current != RBracket {
            return false, at;
          }
          ok := Next();
          return;
        }
        ok := Next();
        if !ok {
          return;
        }
      }
      ok := Next();
    }

    /** etb_parse_atom_core */
    method AtomCore() returns (ok: bool, a: Atom)
      requires Valid()
      modifies this
      ensures Valid()
      ensures ok <==> ParseAtomCore(source, old(State())).Some?
      ensures ok ==> ParseAtomCore(source, old(State())).value == Parsed(a, State())
    {
      a := Predicate("", [], Untimed);
      if !current.Ident? {
        return false, a;
      }
      var principal := current.text;
      ok := Next();
      if !ok {
        return;
      }
      if current == Ident("says") {
        ok := Next();
        if !ok || TokenText(current).None? {
          return false, a;
        }
        var pred := TokenText(current).value;
        ok := Next();
        if !ok {
          return;
        }
        var ts;
        ok, ts := ArgumentList();
        a := Says(principal, pred, ts, Untimed);
      } else if current == Ident("speaks_for") {
        ok := Next();
        if !ok || !current.Ident? {
          return false, a;
        }
        var delegate := current.text;
        ok := Next();
        if !ok {
          return;
        }
        var at;
        ok, at := AttributeBlock();
        a := SpeaksFor(principal, delegate, at.scope, at.expires, at.depth, Untimed);
      } else {
        var ts;
        ok, ts := ArgumentList();
        a := Predicate(principal, ts, Untimed);
      }
    }

    /** etb_parse_atom */
    method ParsedAtom() returns (ok: bool, a: Atom)
      requires Valid()
      modifies this
      ensures Valid()
      ensures ok <==> ParseAtom(source, old(State())).Some?
      ensures ok ==> ParseAtom(source, old(State())).value == Parsed(a, State())
    {
      ok, a := AtomCore();
      if !ok {
        return;
      }
      if current == At || current == Ident("at") {
        var expiry := current == At;
        ok := Next();
        if !ok || !current.Digits? {
          return false, a;
        }
        a := SetWhen(a, if expiry then ExpiresAt(current.value) else AnchoredAt(current.value));
        ok := Next();
      }
    }
  }

  /** etb_parse_atom_text */
  method ParseAtomText(source: string) returns (result: Option<Atom>)
    ensures result == ParseText(source)
  {
    var scanner := new Scanner(source);
    var ok := scanner.Next();
    if !ok {
      return None;
    }
    var a;
    ok, a := scanner.ParsedAtom();
    if !ok {
      return None;
    }
    if scanner.current == Dot {
      ok := scanner.Next();
      if !ok {
        return None;
      }
    }
    if scanner.current != Eof {
      return None;
    }
    result := Some(a);
  }
}
