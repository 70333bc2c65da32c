/** The log as text: the digest of each node and the rendered listing (src/engine/trace.c). */
module TraceText {
  import opened Syntax
  import opened Decimal
  import opened Canon
  import opened Cbor
  import opened TraceLog
  import Sha256

  function KindCode(k: Kind): nat {
    match k
    case FactStep => 0
    case RuleStep => 1
    case CapabilityStep => 2
    case DelegationStep => 3
  }

  function KindName(k: Kind): string {
    match k
    case FactStep => "fact"
    case RuleStep => "rule"
    case CapabilityStep => "capability"
    case DelegationStep => "delegation"
  }

  function IdList(before: string, ids: seq<nat>, after: string): string {
    if ids == [] then "" else IdList(before, ids[..|ids| - 1], after) + before + ToDecimal(ids[|ids| - 1]) + after
  }

  /** The text etb_trace_digest_node hashes, when it fits its buffer. */
  function DigestText(n: Node): string {
    ToDecimal(n.id) + "|" + ToDecimal(KindCode(n.kind)) + "|" + ToDecimal(n.ruleId) + "|" + AtomText(n.fact) + "|" +
    IdList("", n.premises, ",") + (if n.evidence.None? then "" else "|" + n.evidence.value)
  }

  function NodeDigest(n: Node): string {
    Sha256.Hex(Sha256.Digest(ToBytes(DigestText(n))))
  }

  function NodeDigests(nodes: seq<Node>): (ds: seq<string>)
    ensures |ds| == |nodes|
  {
    seq(|nodes|, i requires 0 <= i < |nodes| => NodeDigest(nodes[i]))
  }

  /** One line of etb_trace_render; the premises are separated by commas. */
  function NodeLine(n: Node): string {
    Clipped(512, "[" + ToDecimal(n.id) + "] " + KindName(n.kind) + " r" + ToDecimal(n.ruleId) + " " +
                 AtomText(n.fact)) +
    (if n.premises == [] then "" else " <- " + ("#" + ToDecimal(n.premises[0]) + IdList(",#", n.premises[1..], ""))) +
    (if n.evidence.None? || n.evidence.value == "" then "" else " evidence=" + n.evidence.value)
  }

  function RenderLine(n: Node): string {
    NodeLine(n) + "\n"
  }

  function Render(nodes: seq<Node>): string {
    if nodes == [] then "" else Render(nodes[..|nodes| - 1]) + RenderLine(nodes[|nodes| - 1])
  }

  // ---------- As the text is built ----------

  lemma IdListSnoc(before: string, ids: seq<nat>, i: nat, after: string)
    requires i < |ids|
    ensures IdList(before, ids[..i + 1], after) == IdList(before, ids[..i], after) + before + ToDecimal(ids[i]) + after
  {
    assert ids[..i + 1][..i] == ids[..i];
  }

  /** etb_trace_digest_node */
  method DigestNode(n: Node) returns (hex: string)
    ensures hex == NodeDigest(n)
  {
    hide ToDecimal, AtomText, Sha256.Digest, Sha256.Hex;
    var text := CanonicalText(n.fact);
    var buffer := ToDecimal(n.id) + "|" + ToDecimal(KindCode(n.kind)) + "|" + ToDecimal(n.ruleId) + "|" + text + "|";
    ghost var front := buffer;
    var i := 0;
    while i < |n.premises|
      invariant 0 <= i <= |n.premises|
      invariant buffer == front + IdList("", n.premises[..i], ",")
    {
      IdListSnoc("", n.premises, i, ",");
      buffer := buffer + ToDecimal(n.premises[i]) + ",";
      i := i + 1;
    }
    assert n.premises[..i] == n.premises;
    if n.evidence.Some? {
      buffer := buffer + "|" + n.evidence.value;
    }
    assert buffer == DigestText(n);
    hex := Sha256.Sha256Hex(ToBytes(buffer));
  }

  method DigestNodes(nodes: seq<Node>) returns (ds: seq<string>)
    ensures ds == NodeDigests(nodes)
  {
    hide NodeDigest;
    ds := [];
    var i := 0;
    while i < |nodes|
      invariant 0 <= i <= |nodes| == |nodes|
      invariant |ds| == i && forall k :: 0 <= k < i ==> ds[k] == NodeDigest(nodes[k])
    {
      var d := DigestNode(nodes[i]);
      ds := ds + [d];
      i := i + 1;
    }
  }

  /** etb_trace_render */
  method RenderTrace(nodes: seq<Node>) returns (text: string)
    ensures text == Render(nodes)
  {
    hide RenderLine;
    text := "";
    var i := 0;
    while i < |nodes|
      invariant 0 <= i <= |nodes|
      invariant text == Render(nodes[..i])
    {
      assert nodes[..i + 1][..i] == nodes[..i];
      var line := RenderNode(nodes[i]);
      text := text + line;
      i := i + 1;
    }
    assert nodes[..i] == nodes;
  }

  /** One turn of its loop (source lines 151-187). */
  method RenderNode(n: Node) returns (line: string)
    ensures line == RenderLine(n)
  {
    hide ToDecimal, AtomText, Clipped, IdList;
    var text := CanonicalText(n.fact);
    line := Clipped(512, "[" + ToDecimal(n.id) + "] " + KindName(n.kind) + " r" + ToDecimal(n.ruleId) + " " + text);
    if |n.premises| > 0 {
      var premises := RenderPremises(n.premises);
      line := line + " <- " + premises;
    }
    if n.evidence.Some? && n.evidence.value != "" {
      line := line + " evidence=" + n.evidence.value;
    }
    line := line + "\n";
  }

  method RenderPremises(ids: seq<nat>) returns (text: string)
    requires ids != []
    ensures text == "#" + ToDecimal(ids[0]) + IdList(",#", ids[1..], "")
  {
    hide ToDecimal;
    text := "#" + ToDecimal(ids[0]);
    var i := 1;
    while i < |ids|
      invariant 1 <= i <= |ids|
      invariant text == "#" + ToDecimal(ids[0]) + IdList(",#", ids[1..i], "")
    {
      assert ids[1..i + 1][..i - 1] == ids[1..i];
      text := text + ",#" + ToDecimal(ids[i]);
      i := i + 1;
    }
    assert ids[1..i] == ids[1..];
  }

  // ---------- What the texts tell ----------

  lemma {:induction false} PremiseTextCons(ids: seq<nat>)
    requires ids != []
    ensures IdList("", ids, ",") == ToDecimal(ids[0]) + "," + IdList("", ids[1..], ",")
  {
    hide ToDecimal;
    if |ids| > 1 {
      PremiseTextCons(ids[..|ids| - 1]);
      assert ids[1..][..|ids| - 2] == ids[..|ids| - 1][1..];
    }
  }

  lemma {:induction false} PremisesInjective(ids: seq<nat>, other: seq<nat>)
    requires IdList("", ids, ",") == IdList("", other, ",")
    ensures ids == other
  {
    hide ToDecimal;
    if ids != [] && other != [] {
      PremiseTextCons(ids);
      PremiseTextCons(other);
      LeadingNumber(ids[0], IdList("", ids[1..], ","), other[0], IdList("", other[1..], ","), ',');
      PremisesInjective(ids[1..], other[1..]);
      assert ids == [ids[0]] + ids[1..] && other == [other[0]] + other[1..];
    }
  }

  lemma {:induction false} PremiseTextShape(ids: seq<nat>)
    ensures var p := IdList("", ids, ","); Lacks(p, '|') && (p != "" ==> p[|p| - 1] == ',')
  {
    hide ToDecimal;
    if ids != [] {
      PremiseTextShape(ids[..|ids| - 1]);
    }
  }

  /** Evidence such as the hexadecimal digests that the system produces. */
  predicate PlainEvidence(n: Node) {
    n.evidence.Some? ==> n.evidence.value != "" && Lacks(n.evidence.value, '|') && Lacks(n.evidence.value, ',')
  }

  function EvidenceText(e: Option<string>): string {
    if e.None? then "" else "|" + e.value
  }

  /** The tail of the digest text gives back atom text, premises and evidence. */
  lemma TailInjective(m: Node, n: Node)
    requires PlainEvidence(m) && PlainEvidence(n)
    requires AtomText(m.fact) + "|" + IdList("", m.premises, ",") + EvidenceText(m.evidence) ==
      AtomText(n.fact) + "|" + IdList("", n.premises, ",") + EvidenceText(n.evidence)
    ensures AtomText(m.fact) == AtomText(n.fact) && m.premises == n.premises && m.evidence == n.evidence
  {
    hide AtomText, IdList;
    var a, b := AtomText(m.fact), AtomText(n.fact);
    var p, q := IdList("", m.premises, ","), IdList("", n.premises, ",");
    PremiseTextShape(m.premises);
    PremiseTextShape(n.premises);
    EvidenceLast(a + "|" + p, m.evidence);
    EvidenceLast(b + "|" + q, n.evidence);
    assert "|" == ['|'];
    if m.evidence.Some? && n.evidence.Some? {
      SplitLast(a + "|" + p, m.evidence.value, b + "|" + q, n.evidence.value, '|');
    } else if m.evidence.Some? {
      SplitLast(a + "|" + p, m.evidence.value, b, q, '|');
    } else if n.evidence.Some? {
      SplitLast(a, p, b + "|" + q, n.evidence.value, '|');
    }
    SplitLast(a, p, b, q, '|');
    PremisesInjective(m.premises, n.premises);
  }

  lemma EvidenceLast(front: string, e: Option<string>)
    ensures front + EvidenceText(e) == if e.None? then front else front + ['|'] + e.value
  {
  }

  /**
   * Two nodes have the same digest text exactly when they agree in everything but their facts, and
   * those have the same canonical text.
   */
  lemma DigestTextTells(m: Node, n: Node)
    requires PlainEvidence(m) && PlainEvidence(n)
    ensures DigestText(m) == DigestText(n) <==>
      m.(fact := n.fact) == n && AtomText(m.fact) == AtomText(n.fact)
  {
    hide AtomText, IdList, ToDecimal, PlainEvidence;
    if DigestText(m) == DigestText(n) {
      DigestParts(m);
      DigestParts(n);
      LeadingNumber(m.id, KindPart(m), n.id, KindPart(n), '|');
      LeadingNumber(KindCode(m.kind), RulePart(m), KindCode(n.kind), RulePart(n), '|');
      LeadingNumber(m.ruleId, FactPart(m), n.ruleId, FactPart(n), '|');
      TailInjective(m, n);
    }
  }

  function FactPart(n: Node): string {
    AtomText(n.fact) + "|" + IdList("", n.premises, ",") + EvidenceText(n.evidence)
  }

  function RulePart(n: Node): string {
    ToDecimal(n.ruleId) + "|" + FactPart(n)
  }

  function KindPart(n: Node): string {
    ToDecimal(KindCode(n.kind)) + "|" + RulePart(n)
  }

  lemma DigestParts(n: Node)
    ensures DigestText(n) == ToDecimal(n.id) + "|" + KindPart(n)
  {
    hide AtomText, IdList, ToDecimal;
  }

  // ---------- The lines of the listing ----------

  function Unlines(ls: seq<string>): string {
    if ls == [] then "" else ls[0] + "\n" + Unlines(ls[1..])
  }

  function NodeLines(nodes: seq<Node>): seq<string> {
    seq(|nodes|, k requires 0 <= k < |nodes| => NodeLine(nodes[k]))
  }

  predicate OneLine(n: Node) {
    Lacks(AtomText(n.fact), '\n') && (n.evidence.Some? ==> Lacks(n.evidence.value, '\n'))
  }

  lemma {:induction false} IdListLacks(before: string, ids: seq<nat>, after: string, c: char)
    requires Lacks(before, c) && Lacks(after, c) && !IsDigit(c)
    ensures Lacks(IdList(before, ids, after), c)
  {
    hide ToDecimal;
    if ids != [] {
      IdListLacks(before, ids[..|ids| - 1], after, c);
    }
  }

  lemma FrontLacks(n: Node)
    requires Lacks(AtomText(n.fact), '\n')
    ensures Lacks(Clipped(512, "[" + ToDecimal(n.id) + "] " + KindName(n.kind) + " r" + ToDecimal(n.ruleId) + " " +
                               AtomText(n.fact)), '\n')
  {
    hide ToDecimal, AtomText;
    var name := KindName(n.kind);
    assert Lacks(name, '\n');
  }

  lemma NodeLineIsOne(n: Node)
    requires OneLine(n)
    ensures Lacks(NodeLine(n), '\n')
  {
    hide ToDecimal, AtomText, IdList, Clipped, KindName;
    FrontLacks(n);
    if n.premises != [] {
      IdListLacks(",#", n.premises[1..], "", '\n');
    }
  }

  lemma {:induction false} UnlinesInjective(ls: seq<string>, other: seq<string>)
    requires forall k :: 0 <= k < |ls| ==> Lacks(ls[k], '\n')
    requires forall k :: 0 <= k < |other| ==> Lacks(other[k], '\n')
    requires Unlines(ls) == Unlines(other)
    ensures ls == other
  {
    if ls != [] && other != [] {
      assert "\n" == ['\n'];
      SplitFirst(ls[0], Unlines(ls[1..]), other[0], Unlines(other[1..]), '\n');
      UnlinesInjective(ls[1..], other[1..]);
      assert ls == [ls[0]] + ls[1..] && other == [other[0]] + other[1..];
    }
  }

  lemma {:induction false} UnlinesSnoc(ls: seq<string>, l: string)
    ensures Unlines(ls + [l]) == Unlines(ls) + l + "\n"
  {
    if ls != [] {
      assert (ls + [l])[1..] == ls[1..] + [l];
      UnlinesSnoc(ls[1..], l);
    } else {
      assert [l][1..] == [];
    }
  }

  lemma {:induction false} RenderIsUnlines(nodes: seq<Node>)
    ensures Render(nodes) == Unlines(NodeLines(nodes))
  {
    hide NodeLine;
    if nodes != [] {
      var front := nodes[..|nodes| - 1];
      RenderIsUnlines(front);
      assert NodeLines(nodes) == NodeLines(front) + [NodeLine(nodes[|nodes| - 1])];
      UnlinesSnoc(NodeLines(front), NodeLine(nodes[|nodes| - 1]));
    }
  }

  /** Cut at its line ends, the listing is one line for each node, in the order of the log. */
  lemma RenderedLines(nodes: seq<Node>, ls: seq<string>)
    requires forall k :: 0 <= k < |nodes| ==> OneLine(nodes[k])
    requires forall k :: 0 <= k < |ls| ==> Lacks(ls[k], '\n')
    ensures Unlines(ls) == Render(nodes) <==>
      |ls| == |nodes| && forall k :: 0 <= k < |ls| ==> ls[k] == NodeLine(nodes[k])
  {
    hide NodeLine, OneLine, Render, Unlines;
    RenderIsUnlines(nodes);
    forall k | 0 <= k < |nodes|
      ensures Lacks(NodeLines(nodes)[k], '\n')
    {
      NodeLineIsOne(nodes[k]);
    }
    if Unlines(ls) == Render(nodes) {
      UnlinesInjective(ls, NodeLines(nodes));
    } else {
      assert ls != NodeLines(nodes);
    }
  }

  lemma {:induction false} DecimalLength(n: nat, most: nat, digits: nat)
    requires n < most && TenTo(digits) == most && digits > 0
    ensures |ToDecimal(n)| <= digits
    decreases digits
  {
    if n >= 10 {
      DecimalLength(n / 10, TenTo(digits - 1), digits - 1);
    }
  }

  function TenTo(digits: nat): nat {
    if digits == 0 then 1 else 10 * TenTo(digits - 1)
  }

  lemma TwentyDigits()
    ensures TWO64 <= TenTo(20)
  {
    assert TenTo(2) == 100;
    assert TenTo(4) == 10000;
    assert TenTo(6) == 1000000;
    assert TenTo(8) == 100000000;
    assert TenTo(10) == 10000000000;
    assert TenTo(12) == 1000000000000;
    assert TenTo(14) == 100000000000000;
    assert TenTo(16) == 10000000000000000;
    assert TenTo(18) == 1000000000000000000;
  }

  /** Each line begins with the node's id, the name of its kind and its rule; 64-bit numbers are never cut. */
  lemma LineBegins(n: Node)
    requires n.id < TWO64 && n.ruleId < TWO64
    ensures "[" + ToDecimal(n.id) + "] " + KindName(n.kind) + " r" + ToDecimal(n.ruleId) + " " <= NodeLine(n)
  {
    hide ToDecimal, AtomText, IdList;
    TwentyDigits();
    DecimalLength(n.id, TenTo(20), 20);
    DecimalLength(n.ruleId, TenTo(20), 20);
    ClippedKeeps("[" + ToDecimal(n.id) + "] " + KindName(n.kind) + " r" + ToDecimal(n.ruleId) + " ", AtomText(n.fact),
                 512);
  }

  lemma ClippedKeeps(front: string, text: string, room: nat)
    requires |front| < room
    ensures front <= Clipped(room, front + text)
  {
  }

  // ---------- Two nodes in full ----------

  function SampleFact(): Node {
    Node(0, FactStep, 4, Predicate("p", [Symbol("a")], Untimed), [], None)
  }

  function SampleRule(): Node {
    Node(12, RuleStep, 3, Predicate("q", [], Untimed), [0, 7], Some("beef"))
  }

  lemma SampleFactDigest()
    ensures DigestText(SampleFact()) == "0|0|4|p(a)|"
  {
    hide ToDecimal, AtomText;
    SampleNumbers();
    SampleFactFront();
  }

  lemma SampleFactLine()
    ensures NodeLine(SampleFact()) == "[0] fact r4 p(a)"
  {
    hide ToDecimal, AtomText, Clipped;
    SampleNumbers();
    SampleFactFront();
  }

  lemma SampleFactFront()
    ensures AtomText(SampleFact().fact) == "p(a)"
    ensures Clipped(512, "[" + "0" + "] " + "fact" + " r" + "4" + " " + "p(a)") == "[0] fact r4 p(a)"
  {
  }

  lemma SampleRuleDigest()
    ensures DigestText(SampleRule()) == "12|1|3|q|0,7,|beef"
  {
    hide ToDecimal, IdList;
    SampleNumbers();
    assert AtomText(SampleRule().fact) == "q";
  }

  lemma SampleRuleLine()
    ensures NodeLine(SampleRule()) == "[12] rule r3 q <- #0,#7 evidence=beef"
  {
    hide ToDecimal, IdList, AtomText, Clipped;
    SampleNumbers();
    SampleFront();
    assert SampleRule().premises[1..] == [7];
  }

  lemma SampleFront()
    ensures AtomText(SampleRule().fact) == "q"
    ensures Clipped(512, "[" + "12" + "] " + "rule" + " r" + "3" + " " + "q") == "[12] rule r3 q"
  {
  }

  lemma OtherKinds()
    ensures KindCode(CapabilityStep) == 2 && KindCode(DelegationStep) == 3
    ensures KindName(CapabilityStep) == "capability" && KindName(DelegationStep) == "delegation"
  {
  }

  lemma SampleNumbers()
    ensures ToDecimal(0) == "0" && ToDecimal(1) == "1" && ToDecimal(3) == "3" && ToDecimal(4) == "4"
    ensures ToDecimal(7) == "7" && ToDecimal(12) == "12"
    ensures IdList("", [0, 7], ",") == "0,7," && IdList(",#", [7], "") == ",#7"
  {
    assert [0, 7][..1] == [0] && [0][..0] == [] && [7][..0] == [];
    assert IdList("", [0], ",") == "0,";
  }
}
