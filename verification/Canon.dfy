/** Canonical text of atoms (src/core/canon.c). */
module Canon {
  import opened Syntax
  import opened Decimal

  function SignedDecimal(n: int): string {
    if n < 0 then "-" + ToDecimal(-n) else ToDecimal(n)
  }

  function TermText(t: Term): string {
    match t
    case Symbol(text) => text
    case Variable(name) => "?" + name
    case Str(text) => "\"" + text + "\""
    case Integer(n) => SignedDecimal(n)
    case Null => "null"
  }

  /** The arguments separated by commas, without the parentheses. */
  function ArgsText(ts: seq<Term>): string {
    if ts == [] then ""
    else if |ts| == 1 then TermText(ts[0])
    else TermText(ts[0]) + "," + ArgsText(ts[1..])
  }

  function ListText(ts: seq<Term>): string {
    if ts == [] then "" else "(" + ArgsText(ts) + ")"
  }

  function WhenText(w: Temporal): string {
    match w
    case Untimed => ""
    case ExpiresAt(t) => "@" + ToDecimal(t)
    case AnchoredAt(t) => " at " + ToDecimal(t)
  }

  function AtomText(a: Atom): string {
    match a
    case Predicate(p, ts, w) => p + ListText(ts) + WhenText(w)
    case Says(k, p, ts, w) => k + " says " + p + ListText(ts) + WhenText(w)
    case SpeaksFor(k, d, scope, expires, depth, _) =>
      k + " speaks_for " + d + "[" + (if scope.None? then "*" else scope.value) + "|" + ToDecimal(expires) + "|" +
      ToDecimal(depth) + "]"
  }

  lemma {:induction false} ArgsTextSnoc(ts: seq<Term>, t: Term)
    requires ts != []
    ensures ArgsText(ts + [t]) == ArgsText(ts) + "," + TermText(t)
  {
    if |ts| == 1 {
      assert (ts + [t])[1..] == [t];
    } else {
      ArgsTextSnoc(ts[1..], t);
      assert (ts + [t])[1..] == ts[1..] + [t];
    }
  }

  /** etb_append */
  method Append(buffer: string, text: string, ghost front: string, ghost tail: string) returns (out: string)
    requires buffer == front + tail
    ensures out == front + (tail + text)
  {
    out := buffer + text;
  }

  /** etb_atom_canonical_text, which appends piece by piece to one buffer. */
  method CanonicalText(a: Atom) returns (text: string)
    ensures text == AtomText(a)
  {
    if a.SpeaksFor? {
      return a.principal + " speaks_for " + a.delegate + "[" + (if a.scope.None? then "*" else a.scope.value) + "|" +
             ToDecimal(a.expiresAt) + "|" + ToDecimal(a.maxDepth) + "]";
    }
    text := "";
    if a.Says? {
      text := a.principal;
      text := text + " says ";
    }
    text := AppendRest(if a.Says? then text + a.pred else a.pred, a.terms, a.when);
  }

  method AppendRest(front: string, ts: seq<Term>, w: Temporal) returns (text: string)
    ensures text == front + ListText(ts) + WhenText(w)
  {
    hide ArgsText;
    text := front;
    if |ts| > 0 {
      text := AppendArguments(text, ts);
    } else {
      assert front + "" == front;
    }
    if !w.Untimed? {
      text := text + WhenText(w);
    } else {
      assert text + "" == text;
    }
  }

  /** The bracketed argument list (source lines 74-98). */
  method AppendArguments(front: string, ts: seq<Term>) returns (text: string)
    requires ts != []
    ensures text == front + ListText(ts)
  {
    hide TermText;
    text := front + "(";
    ghost var tail := "(";
    var i := 0;
    while i < |ts|
      invariant 0 <= i <= |ts|
      invariant text == front + tail
      invariant tail == if i == 0 then "(" else "(" + ArgsText(ts[..i]) + (if i < |ts| then "," else "")
    {
      assert ts[..i + 1] == ts[..i] + [ts[i]];
      if i > 0 {
        ArgsTextSnoc(ts[..i], ts[i]);
      }
      text := Append(text, TermText(ts[i]), front, tail);
      tail := tail + TermText(ts[i]);
      assert tail == "(" + ArgsText(ts[..i + 1]);
      if i + 1 != |ts| {
        text := Append(text, ",", front, tail);
        tail := tail + ",";
      }
      i := i + 1;
    }
    assert ts[..i] == ts;
    text := Append(text, ")", front, tail);
  }
}
