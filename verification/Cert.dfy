/** Certificates (src/engine/cert.c). */
module Cert {
  import opened Syntax
  import opened Canon
  import opened Parser
  import opened RoundTrip
  import opened Reread
  import opened Cbor
  import opened TraceText
  import Sha256

  // ---------- What is written ----------

  function AtomTexts(atoms: seq<Atom>): (ts: seq<string>)
    ensures |ts| == |atoms| && forall i :: 0 <= i < |atoms| ==> ts[i] == AtomText(atoms[i])
  {
    seq(|atoms|, i requires 0 <= i < |atoms| => AtomText(atoms[i]))
  }

  function TextItems(ts: seq<string>): bytes {
    if ts == [] then [] else TextItems(ts[..|ts| - 1]) + TextItem(ts[|ts| - 1])
  }

  function TextArray(ts: seq<string>): bytes {
    Head(ARRAY, |ts|) + TextItems(ts)
  }

  /** All bytes in front of the root digest. */
  function Body(query: Atom, answers: seq<Atom>, digests: seq<string>): bytes {
    Head(MAP, 4) + (Field("query", TextItem(AtomText(query))) + (Field("answers", TextArray(AtomTexts(answers))) +
      Field("trace", TextArray(digests))))
  }

  function RootOf(body: bytes): string {
    Sha256.Hex(Sha256.Digest(body))
  }

  function CertificateBytes(query: Atom, answers: seq<Atom>, digests: seq<string>): bytes {
    var body := Body(query, answers, digests);
    body + Field("root", TextItem(RootOf(body)))
  }

  predicate WireTexts(ts: seq<string>) {
    |ts| < TWO64 && forall i :: 0 <= i < |ts| ==> WireText(ts[i])
  }

  predicate Fits(query: Atom, answers: seq<Atom>, digests: seq<string>) {
    WireText(AtomText(query)) && WireTexts(AtomTexts(answers)) && WireTexts(digests)
  }

  // ---------- What is read ----------

  datatype Certificate = Certificate(query: Option<Atom>, answers: seq<Atom>, root: string)

  function AnswerElement(d: bytes, o: nat, answers: seq<Atom>): Option<Read<seq<Atom>>> {
    var t := ReadText(d, o);
    if t.None? then None
    else
      var a := ParseText(t.value.value);
      if a.None? then None else Some(Read(answers + [a.value], t.value.next))
  }

  function DigestElement(d: bytes, o: nat, n: int): Option<Read<int>> {
    var t := ReadText(d, o);
    if t.None? then None else Some(Read(n + 1, t.value.next))
  }

  function AnswersAt(d: bytes, o: nat): Option<Read<seq<Atom>>> {
    var h := ReadHead(d, o, ARRAY);
    if h.None? then None else Repeat(AnswerElement, d, h.value.next, h.value.value, [])
  }

  function DigestsAt(d: bytes, o: nat): Option<Read<int>> {
    var h := ReadHead(d, o, ARRAY);
    if h.None? then None else Repeat(DigestElement, d, h.value.next, h.value.value, 0)
  }

  function CertificateValue(d: bytes, o: nat, key: string, c: Certificate): Option<Read<Certificate>> {
    if key == "query" then
      var t := ReadText(d, o);
      if t.None? || ParseText(t.value.value).None? then None
      else Some(Read(c.(query := ParseText(t.value.value)), t.value.next))
    else if key == "answers" then
      var r := AnswersAt(d, o);
      if r.None? then None else Some(Read(c.(answers := r.value.value), r.value.next))
    else if key == "trace" then
      var r := DigestsAt(d, o);
      if r.None? then None else Some(Read(c, r.value.next))
    else if key == "root" then
      var t := ReadText(d, o);
      if t.None? then None else Some(Read(c.(root := Clipped(65, t.value.value)), t.value.next))
    else None
  }

  function CertificateEntry(d: bytes, o: nat, c: Certificate): Option<Read<Certificate>> {
    var key := ReadText(d, o);
    if key.None? then None else CertificateValue(d, key.value.next, key.value.value, c)
  }

  /** etb_certificate_read_bytes */
  function ReadCertificate(d: bytes): Option<Certificate> {
    var h := ReadHead(d, 0, MAP);
    if h.None? then None
    else
      var r := Repeat(CertificateEntry, d, h.value.next, h.value.value, Certificate(None, [], ""));
      if r.None? then None else Some(r.value.value)
  }

  // ---------- Reading back what was written ----------

  /** The atoms that a list of texts reads as, if all of them parse. */
  function ParsedAll(ts: seq<string>): (r: Option<seq<Atom>>)
    ensures r.Some? ==> |r.value| == |ts|
  {
    if ts == [] then Some([])
    else
      var front, last := ParsedAll(ts[..|ts| - 1]), ParseText(ts[|ts| - 1]);
      if front.None? || last.None? then None else Some(front.value + [last.value])
  }

  lemma {:induction false} ParsedAllIs(ts: seq<string>, atoms: seq<Atom>)
    requires |ts| == |atoms|
    ensures ParsedAll(ts) == Some(atoms) <==> forall i :: 0 <= i < |ts| ==> ParseText(ts[i]) == Some(atoms[i])
    decreases |ts|
  {
    hide ParseText;
    if ts != [] {
      var n := |ts| - 1;
      ParsedAllIs(ts[..n], atoms[..n]);
      assert atoms == atoms[..n] + [atoms[n]];
    }
  }

  lemma {:induction false} AnswersRead(d: bytes, o: nat, ts: seq<string>)
    requires (forall i :: 0 <= i < |ts| ==> WireText(ts[i])) && Has(d, o, TextItems(ts))
    ensures Repeat(AnswerElement, d, o, |ts|, []) ==
      if ParsedAll(ts).None? then None else Some(Read(ParsedAll(ts).value, o + |TextItems(ts)|))
    decreases |ts|
  {
    hide ParseText, TextItem, ReadText, Has, WireText;
    if ts != [] {
      var front, t := ts[..|ts| - 1], ts[|ts| - 1];
      HasSplit(d, o, TextItems(front), TextItem(t));
      AnswersRead(d, o, front);
      if ParsedAll(front).None? {
        RepeatFails(AnswerElement, d, o, |front|, []);
      } else {
        RepeatSnoc(AnswerElement, d, o, |front|, []);
        WireTextReads(d, o + |TextItems(front)|, t);
      }
    }
  }

  lemma {:induction false} DigestsRead(d: bytes, o: nat, ts: seq<string>)
    requires (forall i :: 0 <= i < |ts| ==> WireText(ts[i])) && Has(d, o, TextItems(ts))
    ensures Repeat(DigestElement, d, o, |ts|, 0) == Some(Read(|ts|, o + |TextItems(ts)|))
    decreases |ts|
  {
    hide TextItem, ReadText, Has, WireText;
    if ts != [] {
      var front, t := ts[..|ts| - 1], ts[|ts| - 1];
      HasSplit(d, o, TextItems(front), TextItem(t));
      DigestsRead(d, o, front);
      RepeatSnoc(DigestElement, d, o, |front|, 0);
      WireTextReads(d, o + |TextItems(front)|, t);
    }
  }

  lemma WireTextReads(d: bytes, o: nat, t: string)
    requires WireText(t) && Has(d, o, TextItem(t))
    ensures ReadText(d, o) == Some(Read(t, o + |TextItem(t)|))
  {
    TextReads(d, o, t);
  }

  lemma QueryEntry(d: bytes, o: nat, t: string, c: Certificate)
    requires WireText(t) && Has(d, o, Field("query", TextItem(t)))
    ensures CertificateEntry(d, o, c) ==
      if ParseText(t).None? then None else Some(Read(c.(query := ParseText(t)), o + |Field("query", TextItem(t))|))
  {
    hide TextItem, ReadText, Has, ParseText;
    FieldKey(d, o, "query", TextItem(t));
    TextReads(d, o + |TextItem("query")|, t);
  }

  lemma AnswersEntry(d: bytes, o: nat, ts: seq<string>, c: Certificate)
    requires WireTexts(ts) && Has(d, o, Field("answers", TextArray(ts)))
    ensures CertificateEntry(d, o, c) ==
      if ParsedAll(ts).None? then None
      else Some(Read(c.(answers := ParsedAll(ts).value), o + |Field("answers", TextArray(ts))|))
  {
    hide TextItem, ReadText, Head, ReadHead, Has, ParseText, Repeat, TextItems, WireText, ParsedAll;
    FieldKey(d, o, "answers", TextArray(ts));
    var o1 := o + |TextItem("answers")|;
    HasSplit(d, o1, Head(ARRAY, |ts|), TextItems(ts));
    HeadReads(d, o1, ARRAY, |ts|);
    AnswersRead(d, o1 + |Head(ARRAY, |ts|)|, ts);
  }

  lemma TraceEntry(d: bytes, o: nat, ts: seq<string>, c: Certificate)
    requires WireTexts(ts) && Has(d, o, Field("trace", TextArray(ts)))
    ensures CertificateEntry(d, o, c) == Some(Read(c, o + |Field("trace", TextArray(ts))|))
  {
    hide TextItem, ReadText, Head, ReadHead, Has, Repeat, TextItems, WireText;
    FieldKey(d, o, "trace", TextArray(ts));
    var o1 := o + |TextItem("trace")|;
    HasSplit(d, o1, Head(ARRAY, |ts|), TextItems(ts));
    HeadReads(d, o1, ARRAY, |ts|);
    DigestsRead(d, o1 + |Head(ARRAY, |ts|)|, ts);
  }

  lemma RootEntry(d: bytes, o: nat, root: string, c: Certificate)
    requires WireText(root) && |root| <= 64 && Has(d, o, Field("root", TextItem(root)))
    ensures CertificateEntry(d, o, c) == Some(Read(c.(root := root), o + |Field("root", TextItem(root))|))
  {
    hide TextItem, ReadText, Has;
    FieldKey(d, o, "root", TextItem(root));
    TextReads(d, o + |TextItem("root")|, root);
  }

  lemma RootIsText(body: bytes)
    ensures WireText(RootOf(body)) && |RootOf(body)| == 64
  {
  }

  /** The four entries of a written certificate and where they are. */
  lemma EntriesThere(d: bytes, q: bytes, a: bytes, t: bytes, r: bytes)
    requires d == Head(MAP, 4) + (q + (a + t)) + r
    ensures var o := |Head(MAP, 4)|;
      && ReadHead(d, 0, MAP) == Some(Read(4, o)) && Has(d, o, q) && Has(d, o + |q|, a)
      && Has(d, o + |q| + |a|, t) && Has(d, o + |q| + |a| + |t|, r)
  {
    hide Head, ReadHead, Has;
    HasAll(d);
    var h := Head(MAP, 4);
    HasSplit(d, 0, h + (q + (a + t)), r);
    HasSplit(d, 0, h, q + (a + t));
    HeadReads(d, 0, MAP, 4);
    HasSplit(d, |h|, q, a + t);
    HasSplit(d, |h| + |q|, a, t);
  }

  /**
   * What any built certificate is read as: nothing when its query or one of its answers is printed as
   * text that does not parse, and otherwise what those texts parse to, with the hash of all bytes in
   * front of the root.
   */
  lemma CertificateReads(query: Atom, answers: seq<Atom>, digests: seq<string>)
    requires Fits(query, answers, digests)
    ensures var q, r := ParseText(AtomText(query)), ParsedAll(AtomTexts(answers));
      ReadCertificate(CertificateBytes(query, answers, digests)) ==
        if q.None? || r.None? then None
        else Some(Certificate(q, r.value, RootOf(Body(query, answers, digests))))
  {
    hide Head, ReadHead, Field, TextItem, TextArray, CertificateEntry, Repeat, Has, ParseText, ParsedAll, AtomText,
      RootOf,
      WireText, WireTexts;
    var ts := AtomTexts(answers);
    var q, a := Field("query", TextItem(AtomText(query))), Field("answers", TextArray(ts));
    var t := Field("trace", TextArray(digests));
    var root := RootOf(Body(query, answers, digests));
    var r := Field("root", TextItem(root));
    var d := CertificateBytes(query, answers, digests);
    RootIsText(Body(query, answers, digests));
    EntriesThere(d, q, a, t, r);
    EntriesRead(d, |Head(MAP, 4)|, AtomText(query), ts, digests, root);
  }

  lemma EntriesRead(d: bytes, o: nat, query: string, ts: seq<string>, digests: seq<string>, root: string)
    requires WireText(query) && WireTexts(ts) && WireTexts(digests) && WireText(root) && |root| <= 64
    requires Has(d, o, Field("query", TextItem(query)))
    requires Has(d, o + |Field("query", TextItem(query))|, Field("answers", TextArray(ts)))
    requires Has(d, o + |Field("query", TextItem(query))| + |Field("answers", TextArray(ts))|,
                 Field("trace", TextArray(digests)))
    requires Has(d, o + |Field("query", TextItem(query))| + |Field("answers", TextArray(ts))| +
                    |Field("trace", TextArray(digests))|, Field("root", TextItem(root)))
    ensures var r := Repeat(CertificateEntry, d, o, 4, Certificate(None, [], ""));
      if ParseText(query).None? || ParsedAll(ts).None? then r.None?
      else r.Some? && r.value.value == Certificate(ParseText(query), ParsedAll(ts).value, root)
  {
    hide Field, TextItem, TextArray, CertificateEntry, Repeat, Has, ParseText, ParsedAll, WireText, WireTexts;
    var c0 := Certificate(None, [], "");
    var c1 := c0.(query := ParseText(query));
    QueryEntry(d, o, query, c0);
    RepeatStep(CertificateEntry, d, o, 4, c0);
    if ParseText(query).Some? {
      var o1 := o + |Field("query", TextItem(query))|;
      AnswersEntry(d, o1, ts, c1);
      RepeatStep(CertificateEntry, d, o1, 3, c1);
      if ParsedAll(ts).Some? {
        var c2 := c1.(answers := ParsedAll(ts).value);
        var o2 := o1 + |Field("answers", TextArray(ts))|;
        TraceEntry(d, o2, digests, c2);
        RepeatStep(CertificateEntry, d, o2, 2, c2);
        var o3 := o2 + |Field("trace", TextArray(digests))|;
        RootEntry(d, o3, root, c2);
        RepeatStep(CertificateEntry, d, o3, 1, c2);
        RepeatNone(CertificateEntry, d, o3 + |Field("root", TextItem(root))|, c2.(root := root));
      }
    }
  }

  /** A certificate is read back as it was built if and only if its query and all its answers are printable. */
  lemma CertificateExact(query: Atom, answers: seq<Atom>, digests: seq<string>)
    requires Fits(query, answers, digests)
    requires query.SpeaksFor? ==> Shaped(query)
    requires forall i :: 0 <= i < |answers| && answers[i].SpeaksFor? ==> Shaped(answers[i])
    ensures var built := Certificate(Some(query), answers, RootOf(Body(query, answers, digests)));
      (ReadCertificate(CertificateBytes(query, answers, digests)) == Some(built)) <==>
      (Printable(query) && forall i :: 0 <= i < |answers| ==> Printable(answers[i]))
  {
    hide ParseText, ParsedAll, AtomText, CertificateBytes, ReadCertificate, Fits, Shaped, Printable, RootOf, Body;
    CertificateReads(query, answers, digests);
    ReparseExact(query);
    ParsedAllIs(AtomTexts(answers), answers);
    forall i | 0 <= i < |answers|
      ensures ParseText(AtomText(answers[i])) == Some(answers[i]) <==> Printable(answers[i])
    {
      ReparseExact(answers[i]);
    }
  }

  /**
   * With printable answers, and a query whose names are printed as one token each and whose terms are
   * as the parser yields them, a certificate can be read at all exactly when the query has no variables.
   */
  lemma ReadableIffGround(query: Atom, answers: seq<Atom>, digests: seq<string>)
    requires Fits(query, answers, digests) && forall i :: 0 <= i < |answers| ==> Printable(answers[i])
    requires !query.SpeaksFor? && Named(query) && AllParsed(query.terms) && PrintableWhen(query.when)
    ensures ReadCertificate(CertificateBytes(query, answers, digests)).Some? <==> query.Ground()
  {
    hide ParseText, ParsedAll, AtomText, CertificateBytes, ReadCertificate, Fits, Named, PrintableTerm, ParsedTerm;
    CertificateReads(query, answers, digests);
    ParsedAllIs(AtomTexts(answers), answers);
    forall i | 0 <= i < |answers|
      ensures ParseText(AtomTexts(answers)[i]) == Some(answers[i])
    {
      PrintableReads(answers[i]);
    }
    if query.Ground() {
      GroundPrintable(query);
      PrintableReads(query);
    } else {
      VariablesDoNotRead(query);
    }
  }

  // ---------- The writer and the reader as they run ----------

  method WriteTexts(b: Buffer, ts: seq<string>)
    requires b.Valid() && WireTexts(ts)
    modifies b, b.data
    ensures b.Valid() && b.Contents() == old(b.Contents()) + TextArray(ts)
    ensures b.data == old(b.data) || fresh(b.data)
  {
    hide Head, TextItem;
    ghost var start := b.Contents();
    b.WriteHead(ARRAY, |ts|);
    ghost var before := start + Head(ARRAY, |ts|);
    var i := 0;
    while i < |ts|
      invariant 0 <= i <= |ts| && b.Valid() && (b.data == old(b.data) || fresh(b.data))
      invariant b.Contents() == before + TextItems(ts[..i])
    {
      assert ts[..i + 1][..i] == ts[..i];
      b.WriteText(ts[i]);
      assert before + TextItems(ts[..i]) + TextItem(ts[i]) == before + TextItems(ts[..i + 1]);
      i := i + 1;
    }
    assert ts[..i] == ts;
    assert before + TextItems(ts) == start + TextArray(ts);
  }

  /** The canonical texts of the answers, in order. */
  method CanonicalTexts(atoms: seq<Atom>) returns (ts: seq<string>)
    ensures ts == AtomTexts(atoms)
  {
    hide AtomText;
    ts := [];
    var i := 0;
    while i < |atoms|
      invariant 0 <= i <= |atoms| && ts == AtomTexts(atoms[..i])
    {
      var t := CanonicalText(atoms[i]);
      ts := ts + [t];
      i := i + 1;
    }
    assert atoms[..i] == atoms;
  }

  method WriteKeyedTexts(b: Buffer, key: string, ts: seq<string>)
    requires b.Valid() && |key| < TWO64 && WireTexts(ts)
    modifies b, b.data
    ensures b.Valid() && b.Contents() == old(b.Contents()) + Field(key, TextArray(ts))
    ensures b.data == old(b.data) || fresh(b.data)
  {
    hide TextItem, TextArray;
    ghost var before := b.Contents();
    b.WriteText(key);
    WriteTexts(b, ts);
    assert before + TextItem(key) + TextArray(ts) == before + Field(key, TextArray(ts));
  }

  /** etb_certificate_build; it fails when a text is no C string that fits in memory. */
  method BuildCertificate(query: Atom, answers: seq<Atom>, digests: seq<string>)
    returns (ok: bool, cbor: bytes, root: string)
    ensures ok <==> Fits(query, answers, digests)
    ensures ok ==> cbor == CertificateBytes(query, answers, digests) && root == RootOf(Body(query, answers, digests))
  {
    hide Field, TextItem, Body, WireText, WireTexts, AtomText, Sha256.Digest, Sha256.Hex;
    cbor, root := [], "";
    var text := CanonicalText(query);
    var texts := CanonicalTexts(answers);
    if !WireText(text) || !WireTexts(texts) || !WireTexts(digests) {
      return false, cbor, root;
    }
    var b := WriteBody(query, answers, digests, text, texts);
    ghost var body := Body(query, answers, digests);
    root := Sha256.Sha256Hex(b.data[..b.size]);
    RootIsText(body);
    WriteTextField(b, "root", root);
    cbor := b.data[..b.size];
    ok := true;
  }

  /** Everything in front of the root (source lines 64-93). */
  method WriteBody(ghost query: Atom, ghost answers: seq<Atom>, digests: seq<string>, text: string, texts: seq<string>)
    returns (b: Buffer)
    requires text == AtomText(query) && texts == AtomTexts(answers)
    requires WireText(text) && WireTexts(texts) && WireTexts(digests)
    ensures fresh(b) && fresh(b.data) && b.Valid() && b.Contents() == Body(query, answers, digests)
  {
    hide Head, Field, TextItem, TextArray, ByteText, WireTexts, AtomText;
    b := new Buffer();
    b.WriteHead(MAP, 4);
    WriteTextField(b, "query", text);
    WriteKeyedTexts(b, "answers", texts);
    WriteKeyedTexts(b, "trace", digests);
    WroteThree(Head(MAP, 4), Field("query", TextItem(text)), Field("answers", TextArray(texts)),
               Field("trace", TextArray(digests)), b.Contents());
  }

  lemma WroteThree(h: bytes, f1: bytes, f2: bytes, f3: bytes, z: bytes)
    requires z == [] + h + f1 + f2 + f3
    ensures z == h + (f1 + (f2 + f3))
  {
  }

  /** The answers of a certificate (source lines 163-189). */
  method TakeAnswers(c: Cursor) returns (ok: bool, answers: seq<Atom>)
    modifies c
    ensures ok <==> AnswersAt(c.data, old(c.offset)).Some?
    ensures ok ==> AnswersAt(c.data, old(c.offset)).value == Read(answers, c.offset)
  {
    hide ReadText, ReadHead, ParseText;
    answers := [];
    var n;
    ok, n := c.TakeHead(ARRAY);
    if !ok {
      return;
    }
    ghost var start := c.offset;
    var i := 0;
    while i < n
      invariant 0 <= i <= n
      invariant Repeat(AnswerElement, c.data, c.offset, n - i, answers) == Repeat(AnswerElement, c.data, start, n, [])
    {
      RepeatStep(AnswerElement, c.data, c.offset, n - i, answers);
      var text, a;
      ok, text := c.TakeText();
      if !ok {
        return;
      }
      a := ParseAtomText(text);
      if a.None? {
        return false, answers;
      }
      answers := answers + [a.value];
      i := i + 1;
    }
    RepeatNone(AnswerElement, c.data, c.offset, answers);
  }

  /** The trace digests are read and dropped (source lines 191-206). */
  method TakeDigests(c: Cursor) returns (ok: bool)
    modifies c
    ensures ok <==> DigestsAt(c.data, old(c.offset)).Some?
    ensures ok ==> DigestsAt(c.data, old(c.offset)).value.next == c.offset
  {
    hide ReadText, ReadHead;
    var n;
    ok, n := c.TakeHead(ARRAY);
    if !ok {
      return;
    }
    ghost var start := c.offset;
    var i := 0;
    while i < n
      invariant 0 <= i <= n
      invariant Repeat(DigestElement, c.data, c.offset, n - i, i) == Repeat(DigestElement, c.data, start, n, 0)
    {
      RepeatStep(DigestElement, c.data, c.offset, n - i, i);
      var text;
      ok, text := c.TakeText();
      if !ok {
        return;
      }
      i := i + 1;
    }
    RepeatNone(DigestElement, c.data, c.offset, i);
  }

  method TakeEntry(c: Cursor, before: Certificate) returns (ok: bool, after: Certificate)
    modifies c
    ensures ok <==> CertificateEntry(c.data, old(c.offset), before).Some?
    ensures ok ==> CertificateEntry(c.data, old(c.offset), before).value == Read(after, c.offset)
  {
    hide ReadText, AnswersAt, DigestsAt, ParseText;
    after := before;
    var key, text;
    ok, key := c.TakeText();
    if !ok {
      return;
    }
    if key == "query" {
      ok, text := c.TakeText();
      if ok {
        var query := ParseAtomText(text);
        ok := query.Some?;
        after := before.(query := query);
      }
    } else if key == "answers" {
      var answers;
      ok, answers := TakeAnswers(c);
      after := before.(answers := answers);
    } else if key == "trace" {
      ok := TakeDigests(c);
    } else if key == "root" {
      ok, text := c.TakeText();
      after := before.(root := Clipped(65, text));
    } else {
      ok := false;
    }
  }

  /** etb_certificate_read_bytes */
  method ReadBytesOf(cbor: bytes) returns (certificate: Option<Certificate>)
    ensures certificate == ReadCertificate(cbor)
  {
    hide CertificateEntry, ReadHead;
    var c := new Cursor(cbor);
    var ok, n := c.TakeHead(MAP);
    if !ok {
      return None;
    }
    ghost var start := c.offset;
    var read := Certificate(None, [], "");
    var i := 0;
    while i < n
      invariant 0 <= i <= n
      invariant Repeat(CertificateEntry, cbor, c.offset, n - i, read) ==
        Repeat(CertificateEntry, cbor, start, n, Certificate(None, [], ""))
    {
      RepeatStep(CertificateEntry, cbor, c.offset, n - i, read);
      ok, read := TakeEntry(c, read);
      if !ok {
        return None;
      }
      i := i + 1;
    }
    RepeatNone(CertificateEntry, cbor, c.offset, read);
    certificate := Some(read);
  }
}
