/** Delegations as they are written in programs: a bracketed list of attributes (src/core/parser.c:226-292). */
module AttributeLists {
  import opened Syntax
  import opened Decimal
  import opened Parser
  import opened RoundTrip
  import opened Reread

  datatype Value = Name(text: string) | Text(text: string) | Number(n: nat)

  /** One attribute as it is written. */
  datatype Entry = Entry(key: string, value: Value)

  predicate Writable(e: Entry) {
    LexName(e.key) &&
    match e.value
    case Name(x) => LexName(x)
    case Text(x) => QuoteFree(x)
    case Number(n) => n <= INT64_MAX
  }

  function ValueText(v: Value): string {
    match v
    case Name(x) => x
    case Text(x) => "\"" + x + "\""
    case Number(n) => ToDecimal(n)
  }

  function EntryText(e: Entry): string {
    e.key + ("=" + ValueText(e.value))
  }

  /** The entries from the first on, separated by a comma and a blank, and the closing bracket. */
  function EntriesText(es: seq<Entry>): string {
    if es == [] then "]"
    else EntryText(es[0]) + (if |es| == 1 then "]" else "," + (" " + EntriesText(es[1..])))
  }

  // ---------- What the list says ----------

  /** The text that the last textual entry of this key gives. */
  function LastText(es: seq<Entry>, key: string): Option<string> {
    if es == [] then None
    else
      var e := es[|es| - 1];
      if e.key == key && !e.value.Number? then Some(e.value.text) else LastText(es[..|es| - 1], key)
  }

  /** The number that the last numeric entry of this key gives, or zero. */
  function LastNumber(es: seq<Entry>, key: string): nat {
    if es == [] then 0
    else
      var e := es[|es| - 1];
      if e.key == key && e.value.Number? then e.value.n else LastNumber(es[..|es| - 1], key)
  }

  function Meaning(es: seq<Entry>): Attributes {
    Attributes(LastText(es, "scope"), LastNumber(es, "expires"), LastNumber(es, "depth") % 0x1_0000_0000)
  }

  function ValueToken(v: Value): Token
    requires v.Number? ==> v.n <= INT64_MAX
  {
    match v
    case Name(x) => Ident(x)
    case Text(x) => Quoted(x)
    case Number(n) => Digits(ToDecimal(n), n)
  }

  lemma MeaningSnoc(es: seq<Entry>, e: Entry)
    requires Writable(e)
    ensures Meaning(es + [e]) == SetAttribute(Meaning(es), e.key, ValueToken(e.value))
  {
    assert (es + [e])[..|es|] == es;
  }

  // ---------- Reading the list ----------

  predicate Separates(c: char) {
    c == ',' || c == ']'
  }

  lemma ReadValue(s: string, o: nat, v: Value, rest: string)
    requires From(s, o, ValueText(v) + rest) && Writable(Entry("k", v)) && Separates(CharAt(rest, 0))
    ensures Advance(s, o) == Some(Scan(o + |ValueText(v)|, ValueToken(v))) && From(s, o + |ValueText(v)|, rest)
  {
    hide Advance, ToDecimal, FromDecimal, Saturated;
    Drop(s, o, ValueText(v), rest);
    match v {
      case Name(x) => ReadName(s, o, x, rest);
      case Text(x) => ReadQuoted(s, o, x, rest);
      case Number(n) =>
        ReadDigits(s, o, ToDecimal(n), rest);
        DecimalReads(n);
    }
  }

  /** Key, sign and value of one entry. */
  lemma ReadEntry(s: string, o: nat, e: Entry, rest: string)
    requires From(s, o, EntryText(e) + rest) && Writable(e) && Separates(CharAt(rest, 0))
    ensures var k := o + |e.key|;
      && Advance(s, o) == Some(Scan(k, Ident(e.key))) && Advance(s, k) == Some(Scan(k + 1, Equal))
      && Advance(s, k + 1) == Some(Scan(o + |EntryText(e)|, ValueToken(e.value))) && From(s, o + |EntryText(e)|, rest)
  {
    hide Advance, ValueText, ValueToken, LexName;
    var v := ValueText(e.value);
    assert EntryText(e) + rest == e.key + ("=" + (v + rest));
    assert LexName("k") by {
      OneLetter();
    }
    StepName(s, o, e.key, "=" + (v + rest));
    ReadSingle(s, o + |e.key|, '=', v + rest);
    Drop(s, o + |e.key|, "=", v + rest);
    ReadValue(s, o + |e.key| + 1, e.value, rest);
  }

  lemma OneLetter()
    ensures LexName("k")
  {
  }

  /** The loop over the list, from the first token of an entry. */
  lemma {:induction false} ReadEntries(s: string, o: nat, done: seq<Entry>, es: seq<Entry>)
    requires es != [] && From(s, o, EntriesText(es)) && forall i :: 0 <= i < |es| ==> Writable(es[i])
    ensures Advance(s, o).Some?
    ensures ParseAttributes(s, Advance(s, o).value, Meaning(done)) == Some(Parsed(Meaning(done + es), Scan(|s|, Eof)))
    decreases |es|
  {
    hide Advance, Writable, EntryText, ValueToken, Meaning, SetAttribute, From;
    var e := es[0];
    var at := o + |EntryText(e)|;
    MeaningSnoc(done, e);
    if |es| == 1 {
      ReadEntry(s, o, e, "]");
      ReadClosing(s, at);
      assert es == [e];
    } else {
      var rest := EntriesText(es[1..]);
      ReadEntry(s, o, e, "," + (" " + rest));
      ReadComma(s, at, rest);
      ReadEntries(s, at + 2, done + [e], es[1..]);
      assert done + [e] + es[1..] == done + es;
    }
  }

  lemma ReadClosing(s: string, o: nat)
    requires From(s, o, "]")
    ensures Advance(s, o) == Some(Scan(|s|, RBracket)) && Advance(s, |s|) == Some(Scan(|s|, Eof))
  {
    hide Advance;
    assert "]" + "" == "]";
    ReadSingle(s, o, ']', "");
    ReadEnd(s);
  }

  lemma ReadComma(s: string, o: nat, rest: string)
    requires From(s, o, "," + (" " + rest))
    ensures Advance(s, o) == Some(Scan(o + 1, Comma)) && Advance(s, o + 1) == Advance(s, o + 2)
    ensures From(s, o + 2, rest)
  {
    hide Advance;
    ReadSingle(s, o, ',', " " + rest);
    Drop(s, o, ",", " " + rest);
    ReadBlank(s, o + 1, rest);
    Drop(s, o + 1, " ", rest);
  }

  function SourceText(k: string, d: string, es: seq<Entry>): string {
    Front(k, d) + EntriesText(es)
  }

  /**
   * A delegation written with any list of attributes, in any order, with repeated and unknown keys: the
   * last textual scope and the last numbers for expiry and depth count, the depth modulo 2^32.
   */
  lemma AttributeListReads(k: string, d: string, es: seq<Entry>)
    requires LexName(k) && LexName(d) && forall i :: 0 <= i < |es| ==> Writable(es[i])
    ensures ParseText(SourceText(k, d, es)) ==
      Some(SpeaksFor(k, d, LastText(es, "scope"), LastNumber(es, "expires"), LastNumber(es, "depth") % 0x1_0000_0000,
                     Untimed))
  {
    hide Advance, LexName, Front, Writable, ParseAttrBlock, EntriesText, LastText, LastNumber, Ended;
    var s := SourceText(k, d, es);
    DelegationParse(s, k, d, EntriesText(es));
    BlockReads(k, d, es);
    AtEnd(s, Delegated(k, d, Parsed(Meaning(es), Scan(|s|, Eof))).value);
  }

  lemma BlockReads(k: string, d: string, es: seq<Entry>)
    requires forall i :: 0 <= i < |es| ==> Writable(es[i])
    ensures var s := SourceText(k, d, es);
      ParseAttrBlock(s, Scan(|Front(k, d)|, LBracket)) == Some(Parsed(Meaning(es), Scan(|s|, Eof)))
  {
    hide Advance, Front, Writable, ParseAttributes, Meaning;
    var s, o := SourceText(k, d, es), |Front(k, d)|;
    assert From(s, o, EntriesText(es));
    NoAttributes();
    if es == [] {
      assert "]" + "" == "]";
      ReadEnd(s);
      ReadSingle(s, o, ']', "");
      EmptyList(s, Scan(|s|, RBracket));
    } else {
      ReadEntries(s, o, [], es);
      assert [] + es == es;
    }
  }

  lemma NoAttributes()
    ensures Meaning([]) == Attributes(None, 0, 0)
  {
  }

  lemma AtEnd(s: string, a: Atom)
    requires a.SpeaksFor?
    ensures Ended(s, Parsed(a, Scan(|s|, Eof))) == Some(a)
  {
    hide Advance;
  }

  lemma EmptyList(s: string, st: Scan)
    requires st == Scan(|s|, RBracket) && Advance(s, |s|) == Some(Scan(|s|, Eof))
    ensures ParseAttributes(s, st, Attributes(None, 0, 0)) == Some(Parsed(Meaning([]), Scan(|s|, Eof)))
  {
    hide Advance;
  }

  /** Every delegation the parser can yield is what some text reads as, all three attributes included. */
  lemma EveryDelegationIsWritten(a: Atom)
    requires a.SpeaksFor? && Shaped(a) && a.when.Untimed? && a.expiresAt <= INT64_MAX && a.maxDepth < 0x1_0000_0000
    ensures var bounds := [Entry("expires", Number(a.expiresAt)), Entry("depth", Number(a.maxDepth))];
      var es := if a.scope.None? then bounds else [Entry("scope", Text(a.scope.value))] + bounds;
      ParseText(SourceText(a.principal, a.delegate, es)) == Some(a)
  {
    hide ParseText, SourceText, QuoteFree, LexName;
    var bounds := [Entry("expires", Number(a.expiresAt)), Entry("depth", Number(a.maxDepth))];
    var scopes := if a.scope.None? then [] else [Entry("scope", Text(a.scope.value))];
    var es := scopes + bounds;
    KeysAreNames();
    assert es[..|es| - 1] == scopes + [bounds[0]];
    assert (scopes + [bounds[0]])[..|scopes|] == scopes;
    AttributeListReads(a.principal, a.delegate, es);
    assert LastText(es, "scope") == LastText(scopes, "scope");
    assert a.scope.Some? ==> LastText(scopes, "scope") == a.scope;
    assert a.scope.None? ==> es == bounds;
  }

  lemma KeysAreNames()
    ensures LexName("scope") && LexName("expires") && LexName("depth")
  {
  }
}
