/** Bundles, routes and responses between nodes (src/runtime/distributed.c). */
module Wire {
  import opened Syntax
  import opened Cbor

  // ---------- Bundle lists ----------

  /** A query's certificate as it travels; an empty proof stands for none. */
  datatype Bundle = Bundle(node: string, query: string, trace: Option<string>, cert: bytes, proof: bytes)

  predicate SameKey(b: Bundle, c: Bundle) {
    b.node == c.node && b.query == c.query
  }

  predicate HasKey(bs: seq<Bundle>, b: Bundle) {
    exists i :: 0 <= i < |bs| && SameKey(bs[i], b)
  }

  predicate DistinctKeys(bs: seq<Bundle>) {
    forall i, j :: 0 <= i < j < |bs| ==> !SameKey(bs[i], bs[j])
  }

  /** The first bundle under a key stays. */
  function WithBundle(bs: seq<Bundle>, b: Bundle): seq<Bundle> {
    if HasKey(bs, b) then bs else bs + [b]
  }

  function WithBundles(bs: seq<Bundle>, more: seq<Bundle>): seq<Bundle> {
    if more == [] then bs else WithBundle(WithBundles(bs, more[..|more| - 1]), more[|more| - 1])
  }

  /**
   * Appending keeps what is there, stays free of repeated keys, gives every new bundle an entry
   * under its key, and takes new entries only from the appended list.
   */
  lemma {:induction false} WithBundlesExact(bs: seq<Bundle>, more: seq<Bundle>)
    ensures var r := WithBundles(bs, more);
      && bs <= r && (DistinctKeys(bs) ==> DistinctKeys(r))
      && (forall b :: b in more ==> HasKey(r, b))
      && (forall b :: b in r ==> b in bs || b in more)
  {
    if more != [] {
      var front, b := more[..|more| - 1], more[|more| - 1];
      WithBundlesExact(bs, front);
      var q, r := WithBundles(bs, front), WithBundles(bs, more);
      assert more == front + [b];
      forall c | c in more
        ensures HasKey(r, c)
      {
        if c in front {
          var i :| 0 <= i < |q| && SameKey(q[i], c);
          assert r[i] == q[i];
        } else if !HasKey(q, b) {
          assert r[|q|] == b;
        }
      }
    }
  }

  /** A list without repeated keys is copied as it is. */
  lemma {:induction false} WithBundlesCopies(bs: seq<Bundle>, more: seq<Bundle>)
    requires DistinctKeys(bs + more)
    ensures WithBundles(bs, more) == bs + more
  {
    if more != [] {
      var front, b := more[..|more| - 1], more[|more| - 1];
      assert bs + more == bs + front + [b];
      assert forall i :: 0 <= i < |bs + front| ==> (bs + front)[i] == (bs + more)[i];
      WithBundlesCopies(bs, front);
      assert (bs + more)[|bs + front|] == b;
      forall i | 0 <= i < |bs + front|
        ensures !SameKey((bs + front)[i], b)
      {
        assert (bs + more)[i] == (bs + front)[i];
      }
    }
  }

  class BundleList {
    var items: seq<Bundle>

    constructor ()
      ensures items == []
    {
      items := [];
    }

    /** etb_bundle_list_add_copy */
    method AddCopy(b: Bundle)
      modifies this
      ensures items == WithBundle(old(items), b)
    {
      var i := 0;
      while i < |items|
        invariant 0 <= i <= |items|
        invariant forall k :: 0 <= k < i ==> !SameKey(items[k], b)
      {
        if items[i].node == b.node && items[i].query == b.query {
          return;
        }
        i := i + 1;
      }
      items := items + [b];
    }

    /** etb_bundle_list_append_unique */
    method AppendUnique(source: seq<Bundle>)
      modifies this
      ensures items == WithBundles(old(items), source)
    {
      var i := 0;
      while i < |source|
        invariant 0 <= i <= |source|
        invariant items == WithBundles(old(items), source[..i])
      {
        AddCopy(source[i]);
        assert source[..i + 1][..i] == source[..i];
        i := i + 1;
      }
      assert source[..i] == source;
    }
  }

  // ---------- Route maps ----------

  datatype Route = Route(principal: string, endpoint: string)

  predicate DistinctPrincipals(rs: seq<Route>) {
    forall i, j :: 0 <= i < j < |rs| ==> rs[i].principal != rs[j].principal
  }

  /** The endpoint of the first route of the principal. */
  function Lookup(rs: seq<Route>, principal: string): Option<string> {
    if rs == [] then None
    else if rs[0].principal == principal then Some(rs[0].endpoint)
    else Lookup(rs[1..], principal)
  }

  /** The principal's first route gets the endpoint; a new principal goes to the end. */
  function WithRoute(rs: seq<Route>, r: Route): seq<Route> {
    if rs == [] then [r]
    else if rs[0].principal == r.principal then [r] + rs[1..]
    else [rs[0]] + WithRoute(rs[1..], r)
  }

  function WithRoutes(rs: seq<Route>, more: seq<Route>): seq<Route> {
    if more == [] then rs else WithRoute(WithRoutes(rs, more[..|more| - 1]), more[|more| - 1])
  }

  ghost predicate Mentions(rs: seq<Route>, principal: string) {
    exists i :: 0 <= i < |rs| && rs[i].principal == principal
  }

  /** Adding a route changes the answer for its principal and for nobody else. */
  lemma {:induction false} WithRouteExact(rs: seq<Route>, r: Route, principal: string)
    ensures Lookup(WithRoute(rs, r), principal) ==
      if principal == r.principal then Some(r.endpoint) else Lookup(rs, principal)
    ensures Mentions(WithRoute(rs, r), principal) <==> Mentions(rs, principal) || principal == r.principal
  {
    var w := WithRoute(rs, r);
    if rs != [] {
      WithRouteExact(rs[1..], r, principal);
      assert w[0].principal == rs[0].principal;
      if rs[0].principal == r.principal {
        assert w[1..] == rs[1..];
      } else {
        assert w[1..] == WithRoute(rs[1..], r);
      }
      MentionsHead(rs, principal);
      MentionsHead(w, principal);
    } else {
      MentionsHead(w, principal);
    }
  }

  lemma MentionsHead(rs: seq<Route>, principal: string)
    requires rs != []
    ensures Mentions(rs, principal) <==> rs[0].principal == principal || Mentions(rs[1..], principal)
  {
    if Mentions(rs, principal) {
      var i :| 0 <= i < |rs| && rs[i].principal == principal;
      if i > 0 {
        assert rs[1..][i - 1].principal == principal;
      }
    }
    if Mentions(rs[1..], principal) {
      var i :| 0 <= i < |rs[1..]| && rs[1..][i].principal == principal;
      assert rs[i + 1].principal == principal;
    }
  }

  lemma {:induction false} WithRouteDistinct(rs: seq<Route>, r: Route)
    requires DistinctPrincipals(rs)
    ensures DistinctPrincipals(WithRoute(rs, r))
  {
    if rs != [] {
      var rest := rs[1..];
      WithRouteDistinct(rest, r);
      var w := WithRoute(rs, r);
      assert !Mentions(rest, rs[0].principal);
      WithRouteExact(rest, r, rs[0].principal);
      forall i, j | 0 <= i < j < |w|
        ensures w[i].principal != w[j].principal
      {
        if rs[0].principal == r.principal {
          assert w[j] == rs[j];
        } else {
          assert w[1..] == WithRoute(rest, r);
          assert w[j] == WithRoute(rest, r)[j - 1];
        }
      }
    }
  }

  lemma {:induction false} WithRouteAppends(rs: seq<Route>, r: Route)
    requires !Mentions(rs, r.principal)
    ensures WithRoute(rs, r) == rs + [r]
  {
    if rs != [] {
      MentionsHead(rs, r.principal);
      WithRouteAppends(rs[1..], r);
    }
  }

  /** A merge lays the second map over the first. */
  lemma {:induction false} MergeOverlays(rs: seq<Route>, more: seq<Route>, principal: string)
    requires DistinctPrincipals(more)
    ensures Lookup(WithRoutes(rs, more), principal) ==
      if Lookup(more, principal).Some? then Lookup(more, principal) else Lookup(rs, principal)
    ensures DistinctPrincipals(rs) ==> DistinctPrincipals(WithRoutes(rs, more))
  {
    if more != [] {
      var front, r := more[..|more| - 1], more[|more| - 1];
      MergeOverlays(rs, front, principal);
      WithRouteExact(WithRoutes(rs, front), r, principal);
      assert more == front + [r];
      assert !Mentions(front, r.principal);
      WithRouteAppends(front, r);
      WithRouteExact(front, r, principal);
      if DistinctPrincipals(rs) {
        WithRouteDistinct(WithRoutes(rs, front), r);
      }
    }
  }

  /** Routes of distinct principals are copied as they are. */
  lemma {:induction false} WithRoutesCopies(rs: seq<Route>, more: seq<Route>)
    requires DistinctPrincipals(rs + more)
    ensures WithRoutes(rs, more) == rs + more
  {
    if more != [] {
      var front, r := more[..|more| - 1], more[|more| - 1];
      assert rs + more == rs + front + [r];
      assert forall i :: 0 <= i < |rs + front| ==> (rs + front)[i] == (rs + more)[i];
      WithRoutesCopies(rs, front);
      forall i | 0 <= i < |rs + front|
        ensures (rs + front)[i].principal != r.principal
      {
        assert (rs + more)[i] == (rs + front)[i] && (rs + more)[|rs + front|] == r;
      }
      WithRouteAppends(rs + front, r);
    }
  }

  lemma {:induction false} WithRouteAt(rs: seq<Route>, r: Route, i: nat)
    requires i < |rs| && rs[i].principal == r.principal && forall k :: 0 <= k < i ==> rs[k].principal != r.principal
    ensures WithRoute(rs, r) == rs[i := r]
  {
    if i > 0 {
      WithRouteAt(rs[1..], r, i - 1);
    }
  }

  class RouteMap {
    var items: seq<Route>

    constructor ()
      ensures items == []
    {
      items := [];
    }

    /** etb_peer_route_map_add */
    method Add(r: Route)
      modifies this
      ensures items == WithRoute(old(items), r)
    {
      var i := 0;
      while i < |items|
        invariant 0 <= i <= |items|
        invariant forall k :: 0 <= k < i ==> items[k].principal != r.principal
      {
        if items[i].principal == r.principal {
          WithRouteAt(items, r, i);
          items := items[i := r];
          return;
        }
        i := i + 1;
      }
      WithRouteAppends(items, r);
      items := items + [r];
    }

    /** etb_peer_route_map_lookup */
    method Find(principal: string) returns (endpoint: Option<string>)
      ensures endpoint == Lookup(items, principal)
    {
      var i := 0;
      while i < |items|
        invariant 0 <= i <= |items|
        invariant Lookup(items[i..], principal) == Lookup(items, principal)
      {
        if items[i].principal == principal {
          return Some(items[i].endpoint);
        }
        assert items[i..][1..] == items[i + 1..];
        i := i + 1;
      }
      endpoint := None;
    }

    /** etb_peer_route_map_merge */
    method Merge(source: seq<Route>)
      modifies this
      ensures items == WithRoutes(old(items), source)
    {
      var i := 0;
      while i < |source|
        invariant 0 <= i <= |source|
        invariant items == WithRoutes(old(items), source[..i])
      {
        Add(source[i]);
        assert source[..i + 1][..i] == source[..i];
        i := i + 1;
      }
      assert source[..i] == source;
    }
  }

  // ---------- What is written ----------

  /** C strings and byte buffers that fit in memory. */
  predicate WireBundle(b: Bundle) {
    && WireText(b.node) && WireText(b.query) && (b.trace.Some? ==> WireText(b.trace.value))
    && |b.cert| < TWO64 && |b.proof| < TWO64
  }

  predicate WireBundles(bs: seq<Bundle>) {
    |bs| < TWO64 && forall i :: 0 <= i < |bs| ==> WireBundle(bs[i])
  }

  predicate WireRoutes(rs: seq<Route>) {
    |rs| < TWO64 && forall i :: 0 <= i < |rs| ==> WireText(rs[i].principal) && WireText(rs[i].endpoint)
  }

  function OptionText(t: Option<string>): bytes {
    if t.None? then [NULL_BYTE] else TextItem(t.value)
  }

  function ProofItem(proof: bytes): bytes {
    if proof == [] then [NULL_BYTE] else BytesItem(proof)
  }

  function BundleItem(b: Bundle): bytes {
    Head(MAP, 5) + (Field("node", TextItem(b.node)) + (Field("query", TextItem(b.query)) +
      (Field("trace", OptionText(b.trace)) + (Field("cert", BytesItem(b.cert)) + Field("proof", ProofItem(b.proof))))))
  }

  function BundleItems(bs: seq<Bundle>): bytes {
    if bs == [] then [] else BundleItems(bs[..|bs| - 1]) + BundleItem(bs[|bs| - 1])
  }

  predicate Publishable(r: Route) {
    r.principal != "" && r.endpoint != ""
  }

  function Published(rs: seq<Route>): (p: seq<Route>)
    ensures |p| <= |rs|
  {
    if rs == [] then []
    else
      var front := Published(rs[..|rs| - 1]);
      if Publishable(rs[|rs| - 1]) then front + [rs[|rs| - 1]] else front
  }

  function RouteItem(r: Route): bytes {
    Head(MAP, 2) + (Field("principal", TextItem(r.principal)) + Field("endpoint", TextItem(r.endpoint)))
  }

  function RouteItems(rs: seq<Route>): bytes {
    if rs == [] then [] else RouteItems(rs[..|rs| - 1]) + RouteItem(rs[|rs| - 1])
  }

  function BundleArray(bs: seq<Bundle>): bytes {
    Head(ARRAY, |bs|) + BundleItems(bs)
  }

  function RouteArray(rs: seq<Route>): bytes {
    Head(ARRAY, |rs|) + RouteItems(rs)
  }

  /** A response; `rs` are the routes that are published. */
  function ResponseItem(ok: bool, error: string, bs: seq<Bundle>, rs: seq<Route>, endpoint: Option<string>): bytes {
    Head(MAP, 5) + (Field("ok", BoolItem(ok)) + (Field("error", TextItem(error)) +
      (Field("bundles", BundleArray(bs)) +
      (Field("routes", RouteArray(rs)) + Field("endpoint", OptionText(endpoint))))))
  }

  // ---------- What is read ----------

  /** A bundle whose fields are still being read. */
  datatype Partial = Partial(node: Option<string>, query: Option<string>, trace: Option<string>, cert: Option<bytes>,
                             proof: bytes)

  function NoFields(): Partial {
    Partial(None, None, None, None, [])
  }

  /** The value behind one key of a bundle; a null trace or proof changes nothing. */
  function BundleValue(d: bytes, o: nat, key: string, p: Partial): Option<Read<Partial>> {
    if key == "cert" || (key == "proof" && !IsNull(d, o)) then
      var v := ReadBytes(d, o, BYTES);
      if v.None? then None
      else if key == "cert" then Some(Read(p.(cert := Some(v.value.value)), v.value.next))
      else Some(Read(p.(proof := v.value.value), v.value.next))
    else if key == "proof" || (key == "trace" && IsNull(d, o)) then Some(Read(p, o + 1))
    else
      var v := ReadText(d, o);
      if v.None? then None
      else if key == "node" then Some(Read(p.(node := Some(v.value.value)), v.value.next))
      else if key == "query" then Some(Read(p.(query := Some(v.value.value)), v.value.next))
      else if key == "trace" then Some(Read(p.(trace := Some(v.value.value)), v.value.next))
      else None
  }

  function BundleEntry(d: bytes, o: nat, p: Partial): Option<Read<Partial>> {
    var key := ReadText(d, o);
    if key.None? then None else BundleValue(d, key.value.next, key.value.value, p)
  }

  /** etb_decode_bundle */
  function ReadBundle(d: bytes, o: nat): Option<Read<Bundle>> {
    var h := ReadHead(d, o, MAP);
    if h.None? then None
    else
      var r := Repeat(BundleEntry, d, h.value.next, h.value.value, NoFields());
      if r.None? || r.value.value.node.None? || r.value.value.query.None? || r.value.value.cert.None? then None
      else
        var p := r.value.value;
        Some(Read(Bundle(p.node.value, p.query.value, p.trace, p.cert.value, p.proof), r.value.next))
  }

  function BundleElement(d: bytes, o: nat, bs: seq<Bundle>): Option<Read<seq<Bundle>>> {
    var b := ReadBundle(d, o);
    if b.None? then None else Some(Read(WithBundle(bs, b.value.value), b.value.next))
  }

  datatype Ends = Ends(principal: Option<string>, endpoint: Option<string>)

  function RouteEntry(d: bytes, o: nat, e: Ends): Option<Read<Ends>> {
    var key := ReadText(d, o);
    if key.None? then None
    else
      var v := ReadText(d, key.value.next);
      if v.None? then None
      else if key.value.value == "principal" then Some(Read(e.(principal := Some(v.value.value)), v.value.next))
      else if key.value.value == "endpoint" then Some(Read(e.(endpoint := Some(v.value.value)), v.value.next))
      else None
  }

  function RouteElement(d: bytes, o: nat, rs: seq<Route>): Option<Read<seq<Route>>> {
    var h := ReadHead(d, o, MAP);
    if h.None? then None
    else
      var r := Repeat(RouteEntry, d, h.value.next, h.value.value, Ends(None, None));
      if r.None? || r.value.value.principal.None? || r.value.value.endpoint.None? then None
      else Some(Read(WithRoute(rs, Route(r.value.value.principal.value, r.value.value.endpoint.value)), r.value.next))
  }

  /** etb_decode_routes */
  function ReadRoutes(d: bytes, o: nat): Option<Read<seq<Route>>> {
    var h := ReadHead(d, o, ARRAY);
    if h.None? then None else Repeat(RouteElement, d, h.value.next, h.value.value, [])
  }

  /** A response whose fields are still being read; `room` is the size of the caller's endpoint buffer. */
  datatype Reply = Reply(sawOk: bool, ok: bool, bundles: seq<Bundle>, routes: seq<Route>, endpoint: string, room: nat)

  function BundlesAt(d: bytes, o: nat, bs: seq<Bundle>): Option<Read<seq<Bundle>>> {
    var h := ReadHead(d, o, ARRAY);
    if h.None? then None else Repeat(BundleElement, d, h.value.next, h.value.value, bs)
  }

  function ReplyValue(d: bytes, o: nat, key: string, s: Reply): Option<Read<Reply>> {
    if key == "ok" then
      var v := ReadBool(d, o);
      if v.None? then None else Some(Read(s.(ok := v.value.value, sawOk := true), v.value.next))
    else if key == "error" then
      var v := ReadText(d, o);
      if v.None? then None else Some(Read(s, v.value.next))
    else if key == "bundles" then
      var v := BundlesAt(d, o, s.bundles);
      if v.None? then None else Some(Read(s.(bundles := v.value.value), v.value.next))
    else if key == "routes" then
      var v := ReadRoutes(d, o);
      if v.None? then None else Some(Read(s.(routes := WithRoutes(s.routes, v.value.value)), v.value.next))
    else if key == "endpoint" then
      if IsNull(d, o) then Some(Read(s, o + 1))
      else
        var v := ReadText(d, o);
        if v.None? then None else Some(Read(s.(endpoint := Clipped(s.room, v.value.value)), v.value.next))
    else None
  }

  function ReplyEntry(d: bytes, o: nat, s: Reply): Option<Read<Reply>> {
    var key := ReadText(d, o);
    if key.None? then None else ReplyValue(d, key.value.next, key.value.value, s)
  }

  datatype Response = Response(bundles: seq<Bundle>, routes: seq<Route>, endpoint: string)

  /** etb_decode_response; None is every kind of failure. */
  function ReadResponse(d: bytes, room: nat): Option<Response> {
    var h := ReadHead(d, 0, MAP);
    if h.None? then None
    else
      var r := Repeat(ReplyEntry, d, h.value.next, h.value.value, Reply(false, false, [], [], "", room));
      if r.None? || !r.value.value.sawOk || !r.value.value.ok then None
      else Some(Response(r.value.value.bundles, r.value.value.routes, r.value.value.endpoint))
  }

  // ---------- Reading back what was written ----------

  lemma OptionTextReads(d: bytes, o: nat, t: Option<string>)
    requires (t.Some? ==> WireText(t.value)) && Has(d, o, OptionText(t))
    ensures IsNull(d, o) <==> t.None?
    ensures t.Some? ==> ReadText(d, o) == Some(Read(t.value, o + |OptionText(t)|))
  {
    hide ReadText;
    assert d[o] == d[o..o + |OptionText(t)|][0];
    if t.Some? {
      TextReads(d, o, t.value);
    }
  }

  lemma ProofReads(d: bytes, o: nat, proof: bytes)
    requires |proof| < TWO64 && Has(d, o, ProofItem(proof))
    ensures IsNull(d, o) <==> proof == []
    ensures proof != [] ==> ReadBytes(d, o, BYTES) == Some(Read(proof, o + |ProofItem(proof)|))
  {
    hide ReadBytes;
    assert d[o] == d[o..o + |ProofItem(proof)|][0];
    if proof != [] {
      BytesRead(d, o, BYTES, proof);
    }
  }

  /** One entry of a written bundle, with all that follows it. */
  lemma TextEntry(d: bytes, o: nat, key: string, text: string, p: Partial)
    requires (key == "node" || key == "query") && WireText(text) && Has(d, o, Field(key, TextItem(text)))
    ensures BundleEntry(d, o, p) ==
      Some(Read(if key == "node" then p.(node := Some(text)) else p.(query := Some(text)),
                o + |Field(key, TextItem(text))|))
  {
    hide TextItem, ReadText, Has;
    FieldKey(d, o, key, TextItem(text));
    TextReads(d, o + |TextItem(key)|, text);
  }

  lemma TraceEntry(d: bytes, o: nat, t: Option<string>, p: Partial)
    requires (t.Some? ==> WireText(t.value)) && Has(d, o, Field("trace", OptionText(t)))
    ensures BundleEntry(d, o, p) ==
      Some(Read(if t.None? then p else p.(trace := t), o + |Field("trace", OptionText(t))|))
  {
    hide TextItem, ReadText, Has;
    FieldKey(d, o, "trace", OptionText(t));
    OptionTextReads(d, o + |TextItem("trace")|, t);
  }

  lemma CertEntry(d: bytes, o: nat, cert: bytes, p: Partial)
    requires |cert| < TWO64 && Has(d, o, Field("cert", BytesItem(cert)))
    ensures BundleEntry(d, o, p) == Some(Read(p.(cert := Some(cert)), o + |Field("cert", BytesItem(cert))|))
  {
    hide TextItem, ReadText, ReadBytes, Has;
    FieldKey(d, o, "cert", BytesItem(cert));
    BytesRead(d, o + |TextItem("cert")|, BYTES, cert);
  }

  lemma ProofEntry(d: bytes, o: nat, proof: bytes, p: Partial)
    requires |proof| < TWO64 && Has(d, o, Field("proof", ProofItem(proof)))
    ensures BundleEntry(d, o, p) ==
      Some(Read(if proof == [] then p else p.(proof := proof), o + |Field("proof", ProofItem(proof))|))
  {
    hide TextItem, ReadText, ReadBytes, Has;
    FieldKey(d, o, "proof", ProofItem(proof));
    ProofReads(d, o + |TextItem("proof")|, proof);
  }

  /** A written bundle is read back, whatever follows it. */
  lemma BundleReads(d: bytes, o: nat, b: Bundle)
    requires WireBundle(b) && Has(d, o, BundleItem(b))
    ensures ReadBundle(d, o) == Some(Read(b, o + |BundleItem(b)|))
  {
    hide Head, ReadHead, Field, TextItem, BytesItem, OptionText, ProofItem, BundleEntry, Repeat, Has;
    var f1, f2 := Field("node", TextItem(b.node)), Field("query", TextItem(b.query));
    var f3, f4 := Field("trace", OptionText(b.trace)), Field("cert", BytesItem(b.cert));
    var f5 := Field("proof", ProofItem(b.proof));
    var h := Head(MAP, 5);
    HasSplit(d, o, h, f1 + (f2 + (f3 + (f4 + f5))));
    HeadReads(d, o, MAP, 5);
    var o1 := o + |h|;
    HasSplit(d, o1, f1, f2 + (f3 + (f4 + f5)));
    var o2 := o1 + |f1|;
    HasSplit(d, o2, f2, f3 + (f4 + f5));
    var o3 := o2 + |f2|;
    HasSplit(d, o3, f3, f4 + f5);
    var o4 := o3 + |f3|;
    HasSplit(d, o4, f4, f5);
    var o5 := o4 + |f4|;
    var p1 := NoFields().(node := Some(b.node));
    var p2 := p1.(query := Some(b.query));
    var p3 := if b.trace.None? then p2 else p2.(trace := b.trace);
    var p4 := p3.(cert := Some(b.cert));
    TextEntry(d, o1, "node", b.node, NoFields());
    RepeatStep(BundleEntry, d, o1, 5, NoFields());
    TextEntry(d, o2, "query", b.query, p1);
    RepeatStep(BundleEntry, d, o2, 4, p1);
    TraceEntry(d, o3, b.trace, p2);
    RepeatStep(BundleEntry, d, o3, 3, p2);
    CertEntry(d, o4, b.cert, p3);
    RepeatStep(BundleEntry, d, o4, 2, p3);
    ProofEntry(d, o5, b.proof, p4);
    RepeatStep(BundleEntry, d, o5, 1, p4);
    var p5 := if b.proof == [] then p4 else p4.(proof := b.proof);
    RepeatNone(BundleEntry, d, o5 + |f5|, p5);
  }

  /** The elements of a written array of bundles are added one by one. */
  lemma {:induction false} BundlesRead(d: bytes, o: nat, bs: seq<Bundle>, acc: seq<Bundle>)
    requires (forall k :: 0 <= k < |bs| ==> WireBundle(bs[k])) && Has(d, o, BundleItems(bs))
    ensures Repeat(BundleElement, d, o, |bs|, acc) == Some(Read(WithBundles(acc, bs), o + |BundleItems(bs)|))
    decreases |bs|
  {
    hide BundleItem, ReadBundle, WithBundle, Has, WireBundle;
    if bs != [] {
      var front, b := bs[..|bs| - 1], bs[|bs| - 1];
      HasSplit(d, o, BundleItems(front), BundleItem(b));
      BundlesRead(d, o, front, acc);
      RepeatSnoc(BundleElement, d, o, |front|, acc);
      BundleReads(d, o + |BundleItems(front)|, b);
    }
  }

  lemma RouteTextEntry(d: bytes, o: nat, key: string, text: string, e: Ends)
    requires (key == "principal" || key == "endpoint") && WireText(text) && Has(d, o, Field(key, TextItem(text)))
    ensures RouteEntry(d, o, e) ==
      Some(Read(if key == "principal" then e.(principal := Some(text)) else e.(endpoint := Some(text)),
                o + |Field(key, TextItem(text))|))
  {
    hide TextItem, ReadText, Has;
    FieldKey(d, o, key, TextItem(text));
    TextReads(d, o + |TextItem(key)|, text);
  }

  lemma RouteReads(d: bytes, o: nat, r: Route, rs: seq<Route>)
    requires WireText(r.principal) && WireText(r.endpoint) && Has(d, o, RouteItem(r))
    ensures RouteElement(d, o, rs) == Some(Read(WithRoute(rs, r), o + |RouteItem(r)|))
  {
    hide Head, ReadHead, Field, TextItem, RouteEntry, Repeat, Has, WithRoute, WireText;
    var f1, f2 := Field("principal", TextItem(r.principal)), Field("endpoint", TextItem(r.endpoint));
    var o1 := o + |Head(MAP, 2)|;
    var o2 := o1 + |f1|;
    HasSplit(d, o, Head(MAP, 2), f1 + f2);
    HeadReads(d, o, MAP, 2);
    HasSplit(d, o1, f1, f2);
    var e0, e1 := Ends(None, None), Ends(Some(r.principal), None);
    RouteTextEntry(d, o1, "principal", r.principal, e0);
    RepeatStep(RouteEntry, d, o1, 2, e0);
    RouteTextEntry(d, o2, "endpoint", r.endpoint, e1);
    RepeatStep(RouteEntry, d, o2, 1, e1);
    RepeatNone(RouteEntry, d, o2 + |f2|, e1.(endpoint := Some(r.endpoint)));
  }

  lemma {:induction false} RoutesRead(d: bytes, o: nat, rs: seq<Route>)
    requires (forall k :: 0 <= k < |rs| ==> WireText(rs[k].principal) && WireText(rs[k].endpoint))
    requires Has(d, o, RouteItems(rs))
    ensures Repeat(RouteElement, d, o, |rs|, []) == Some(Read(WithRoutes([], rs), o + |RouteItems(rs)|))
    decreases |rs|
  {
    hide RouteItem, RouteElement, WithRoute, Has, WireText;
    if rs != [] {
      var front, r := rs[..|rs| - 1], rs[|rs| - 1];
      HasSplit(d, o, RouteItems(front), RouteItem(r));
      RoutesRead(d, o, front);
      RepeatSnoc(RouteElement, d, o, |front|, []);
      RouteReads(d, o + |RouteItems(front)|, r, WithRoutes([], front));
    }
  }

  lemma OkEntry(d: bytes, o: nat, ok: bool, s: Reply)
    requires Has(d, o, Field("ok", BoolItem(ok)))
    ensures ReplyEntry(d, o, s) == Some(Read(s.(ok := ok, sawOk := true), o + |Field("ok", BoolItem(ok))|))
  {
    hide TextItem, ReadText, ReadBool, Has;
    FieldKey(d, o, "ok", BoolItem(ok));
    BoolReads(d, o + |TextItem("ok")|, ok);
  }

  lemma ErrorEntry(d: bytes, o: nat, error: string, s: Reply)
    requires WireText(error) && Has(d, o, Field("error", TextItem(error)))
    ensures ReplyEntry(d, o, s) == Some(Read(s, o + |Field("error", TextItem(error))|))
  {
    hide TextItem, ReadText, Has;
    FieldKey(d, o, "error", TextItem(error));
    TextReads(d, o + |TextItem("error")|, error);
  }

  lemma BundlesEntry(d: bytes, o: nat, bs: seq<Bundle>, s: Reply)
    requires WireBundles(bs) && DistinctKeys(bs) && s.bundles == [] && Has(d, o, Field("bundles", BundleArray(bs)))
    ensures ReplyEntry(d, o, s) == Some(Read(s.(bundles := bs), o + |Field("bundles", BundleArray(bs))|))
  {
    hide TextItem, ReadText, Head, ReadHead, Has, Repeat, BundleItems, WireBundle, WithBundles, BundleElement, SameKey;
    FieldKey(d, o, "bundles", BundleArray(bs));
    var o1 := o + |TextItem("bundles")|;
    HasSplit(d, o1, Head(ARRAY, |bs|), BundleItems(bs));
    HeadReads(d, o1, ARRAY, |bs|);
    BundlesRead(d, o1 + |Head(ARRAY, |bs|)|, bs, []);
    assert [] + bs == bs;
    WithBundlesCopies([], bs);
  }

  lemma RoutesEntry(d: bytes, o: nat, rs: seq<Route>, s: Reply)
    requires WireRoutes(rs) && DistinctPrincipals(rs) && s.routes == [] && Has(d, o, Field("routes", RouteArray(rs)))
    ensures ReplyEntry(d, o, s) == Some(Read(s.(routes := rs), o + |Field("routes", RouteArray(rs))|))
  {
    hide TextItem, ReadText, Head, ReadHead, Has, Repeat, RouteItems, WireText, WithRoutes, RouteElement;
    FieldKey(d, o, "routes", RouteArray(rs));
    var o1 := o + |TextItem("routes")|;
    HasSplit(d, o1, Head(ARRAY, |rs|), RouteItems(rs));
    HeadReads(d, o1, ARRAY, |rs|);
    RoutesRead(d, o1 + |Head(ARRAY, |rs|)|, rs);
    assert [] + rs == rs;
    WithRoutesCopies([], rs);
  }

  lemma EndpointEntry(d: bytes, o: nat, endpoint: Option<string>, s: Reply)
    requires (endpoint.Some? ==> WireText(endpoint.value)) && Has(d, o, Field("endpoint", OptionText(endpoint)))
    ensures ReplyEntry(d, o, s) ==
      Some(Read(if endpoint.None? then s else s.(endpoint := Clipped(s.room, endpoint.value)),
                o + |Field("endpoint", OptionText(endpoint))|))
  {
    hide TextItem, ReadText, Has;
    FieldKey(d, o, "endpoint", OptionText(endpoint));
    OptionTextReads(d, o + |TextItem("endpoint")|, endpoint);
  }

  /**
   * A response is read back as it was sent: an error as a failure, and a success with the same
   * bundles in the same order, the same routes, and the endpoint as far as the buffer takes it.
   */
  lemma ResponseReads(ok: bool, error: string, bs: seq<Bundle>, rs: seq<Route>, endpoint: Option<string>, room: nat)
    requires WireText(error) && WireBundles(bs) && WireRoutes(rs) && (endpoint.Some? ==> WireText(endpoint.value))
    requires DistinctKeys(bs) && DistinctPrincipals(rs)
    ensures ReadResponse(ResponseItem(ok, error, bs, rs, endpoint), room) ==
      if !ok then None
      else Some(Response(bs, rs, if endpoint.None? then "" else Clipped(room, endpoint.value)))
  {
    hide Head, ReadHead, Field, TextItem, BoolItem, BundleArray, RouteArray, OptionText, ReplyEntry, Repeat, Has,
      WireText, WireBundle, DistinctKeys, DistinctPrincipals, Clipped;
    var d := ResponseItem(ok, error, bs, rs, endpoint);
    var f1, f2 := Field("ok", BoolItem(ok)), Field("error", TextItem(error));
    var f3, f4 := Field("bundles", BundleArray(bs)), Field("routes", RouteArray(rs));
    var f5 := Field("endpoint", OptionText(endpoint));
    HasAll(d);
    HasSplit(d, 0, Head(MAP, 5), f1 + (f2 + (f3 + (f4 + f5))));
    HeadReads(d, 0, MAP, 5);
    var o1 := |Head(MAP, 5)|;
    HasSplit(d, o1, f1, f2 + (f3 + (f4 + f5)));
    var o2 := o1 + |f1|;
    HasSplit(d, o2, f2, f3 + (f4 + f5));
    var o3 := o2 + |f2|;
    HasSplit(d, o3, f3, f4 + f5);
    var o4 := o3 + |f3|;
    HasSplit(d, o4, f4, f5);
    var o5 := o4 + |f4|;
    var s0 := Reply(false, false, [], [], "", room);
    var s1 := s0.(ok := ok, sawOk := true);
    var s2 := s1.(bundles := bs);
    var s3 := s2.(routes := rs);
    OkEntry(d, o1, ok, s0);
    RepeatStep(ReplyEntry, d, o1, 5, s0);
    ErrorEntry(d, o2, error, s1);
    RepeatStep(ReplyEntry, d, o2, 4, s1);
    BundlesEntry(d, o3, bs, s1);
    RepeatStep(ReplyEntry, d, o3, 3, s1);
    RoutesEntry(d, o4, rs, s2);
    RepeatStep(ReplyEntry, d, o4, 2, s2);
    EndpointEntry(d, o5, endpoint, s3);
    RepeatStep(ReplyEntry, d, o5, 1, s3);
    RepeatNone(ReplyEntry, d, o5 + |f5|, if endpoint.None? then s3 else s3.(endpoint := Clipped(room, endpoint.value)));
  }

  // ---------- The writers ----------

  lemma WroteFive(a: bytes, h: bytes, f1: bytes, f2: bytes, f3: bytes, f4: bytes, f5: bytes, z: bytes)
    requires z == a + h + f1 + f2 + f3 + f4 + f5
    ensures z == a + (h + (f1 + (f2 + (f3 + (f4 + f5)))))
  {
  }

  method WriteOptionField(b: Buffer, key: string, text: Option<string>)
    requires b.Valid() && |key| < TWO64 && (text.Some? ==> |text.value| < TWO64)
    modifies b, b.data
    ensures b.Valid() && b.Contents() == old(b.Contents()) + Field(key, OptionText(text))
    ensures b.data == old(b.data) || fresh(b.data)
  {
    hide TextItem;
    ghost var before := b.Contents();
    b.WriteText(key);
    if text.None? {
      b.WriteNull();
    } else {
      b.WriteText(text.value);
    }
    assert before + TextItem(key) + OptionText(text) == before + Field(key, OptionText(text));
  }

  method WriteCert(b: Buffer, cert: bytes)
    requires b.Valid() && |cert| < TWO64
    modifies b, b.data
    ensures b.Valid() && b.Contents() == old(b.Contents()) + Field("cert", BytesItem(cert))
    ensures b.data == old(b.data) || fresh(b.data)
  {
    hide TextItem, BytesItem;
    ghost var before := b.Contents();
    b.WriteText("cert");
    b.WriteBytes(cert);
    assert before + TextItem("cert") + BytesItem(cert) == before + Field("cert", BytesItem(cert));
  }

  method WriteProof(b: Buffer, proof: bytes)
    requires b.Valid() && |proof| < TWO64
    modifies b, b.data
    ensures b.Valid() && b.Contents() == old(b.Contents()) + Field("proof", ProofItem(proof))
    ensures b.data == old(b.data) || fresh(b.data)
  {
    hide TextItem, BytesItem;
    ghost var before := b.Contents();
    b.WriteText("proof");
    if proof == [] {
      b.WriteNull();
    } else {
      b.WriteBytes(proof);
    }
    assert before + TextItem("proof") + ProofItem(proof) == before + Field("proof", ProofItem(proof));
  }

  /** etb_encode_bundle */
  method WriteBundle(b: Buffer, x: Bundle)
    requires b.Valid() && WireBundle(x)
    modifies b, b.data
    ensures b.Valid() && b.Contents() == old(b.Contents()) + BundleItem(x)
    ensures b.data == old(b.data) || fresh(b.data)
  {
    hide Field, TextItem, OptionText, BytesItem, ProofItem, Head;
    ghost var before := b.Contents();
    b.WriteHead(MAP, 5);
    WriteTextField(b, "node", x.node);
    WriteTextField(b, "query", x.query);
    WriteOptionField(b, "trace", x.trace);
    WriteCert(b, x.cert);
    WriteProof(b, x.proof);
    WroteFive(before, Head(MAP, 5), Field("node", TextItem(x.node)), Field("query", TextItem(x.query)),
              Field("trace", OptionText(x.trace)), Field("cert", BytesItem(x.cert)), Field("proof", ProofItem(x.proof)),
              b.Contents());
  }

  lemma PublishedMore(routes: seq<Route>, i: nat)
    requires i < |routes|
    ensures Published(routes[..i + 1]) == Published(routes[..i]) + (if Publishable(routes[i]) then [routes[i]] else [])
    ensures RouteItems(Published(routes[..i + 1])) ==
      RouteItems(Published(routes[..i])) + (if Publishable(routes[i]) then RouteItem(routes[i]) else [])
  {
    hide RouteItem, Publishable;
    assert routes[..i + 1][..i] == routes[..i];
    var front := Published(routes[..i]);
    assert (front + [routes[i]])[..|front|] == front;
  }

  /** The first loop of etb_encode_routes. */
  method CountPublishable(routes: seq<Route>) returns (n: nat)
    ensures n == |Published(routes)|
  {
    var i := 0;
    n := 0;
    while i < |routes|
      invariant 0 <= i <= |routes| && n == |Published(routes[..i])|
    {
      PublishedMore(routes, i);
      if Publishable(routes[i]) {
        n := n + 1;
      }
      i := i + 1;
    }
    assert routes[..i] == routes;
  }

  /** etb_encode_routes: counts, then writes, the routes that may be published. */
  method WriteRoutes(b: Buffer, routes: seq<Route>)
    requires b.Valid() && WireRoutes(routes)
    modifies b, b.data
    ensures b.Valid() && b.Contents() == old(b.Contents()) + RouteArray(Published(routes))
    ensures b.data == old(b.data) || fresh(b.data)
  {
    hide Head, RouteItem, Publishable, Published, RouteItems, WireText;
    ghost var start := b.Contents();
    var n := CountPublishable(routes);
    b.WriteHead(ARRAY, n);
    WriteRouteItems(b, routes);
    ghost var items := RouteItems(Published(routes));
    assert start + Head(ARRAY, n) + items == start + (Head(ARRAY, n) + items);
  }

  method WriteRouteItems(b: Buffer, routes: seq<Route>)
    requires b.Valid() && WireRoutes(routes)
    modifies b, b.data
    ensures b.Valid() && b.Contents() == old(b.Contents()) + RouteItems(Published(routes))
    ensures b.data == old(b.data) || fresh(b.data)
  {
    hide Head, RouteItem, Publishable, Published, RouteItems, WireText;
    ghost var start := b.Contents();
    var i := 0;
    assert routes[..0] == [] && RouteItems(Published([])) == [] by {
      NothingPublished();
    }
    assert start + [] == start;
    while i < |routes|
      invariant 0 <= i <= |routes| && b.Valid() && (b.data == old(b.data) || fresh(b.data))
      invariant b.Contents() == start + RouteItems(Published(routes[..i]))
    {
      PublishedMore(routes, i);
      ghost var front := RouteItems(Published(routes[..i]));
      if Publishable(routes[i]) {
        WriteRoute(b, routes[i]);
        assert start + front + RouteItem(routes[i]) == start + (front + RouteItem(routes[i]));
      } else {
        assert front + [] == front;
      }
      i := i + 1;
    }
    assert routes[..i] == routes;
  }

  lemma NothingPublished()
    ensures RouteItems(Published([])) == []
  {
  }

  method WriteRoute(b: Buffer, r: Route)
    requires b.Valid() && WireText(r.principal) && WireText(r.endpoint)
    modifies b, b.data
    ensures b.Valid() && b.Contents() == old(b.Contents()) + RouteItem(r)
    ensures b.data == old(b.data) || fresh(b.data)
  {
    hide Field, TextItem, Head;
    ghost var before := b.Contents();
    b.WriteHead(MAP, 2);
    WriteTextField(b, "principal", r.principal);
    WriteTextField(b, "endpoint", r.endpoint);
    assert b.Contents() == before + RouteItem(r);
  }

  method WriteBundles(b: Buffer, bundles: seq<Bundle>)
    requires b.Valid() && WireBundles(bundles)
    modifies b, b.data
    ensures b.Valid() && b.Contents() == old(b.Contents()) + Field("bundles", BundleArray(bundles))
    ensures b.data == old(b.data) || fresh(b.data)
  {
    hide Head, BundleItem, TextItem, WireBundle;
    ghost var start := b.Contents();
    b.WriteText("bundles");
    b.WriteHead(ARRAY, |bundles|);
    ghost var before := start + TextItem("bundles") + Head(ARRAY, |bundles|);
    var i := 0;
    while i < |bundles|
      invariant 0 <= i <= |bundles| && b.Valid() && (b.data == old(b.data) || fresh(b.data))
      invariant b.Contents() == before + BundleItems(bundles[..i])
    {
      assert bundles[..i + 1][..i] == bundles[..i];
      WriteBundle(b, bundles[i]);
      assert before + BundleItems(bundles[..i]) + BundleItem(bundles[i]) == before + BundleItems(bundles[..i + 1]);
      i := i + 1;
    }
    assert bundles[..i] == bundles;
    assert before + BundleItems(bundles) == start + Field("bundles", BundleArray(bundles));
  }

  /** etb_response_encode_ok */
  method EncodeOk(bundles: seq<Bundle>, routes: seq<Route>, endpoint: Option<string>) returns (payload: bytes)
    requires WireBundles(bundles) && WireRoutes(routes) && (endpoint.Some? ==> WireText(endpoint.value))
    ensures payload == ResponseItem(true, "", bundles, Published(routes), endpoint)
  {
    hide Field, TextItem, OptionText, BoolItem, Head, BundleArray, RouteArray, Published;
    var b := new Buffer();
    b.WriteHead(MAP, 5);
    WriteFlag(b, true);
    WriteTextField(b, "error", "");
    WriteBundles(b, bundles);
    WriteRoutesField(b, routes);
    WriteOptionField(b, "endpoint", endpoint);
    payload := b.data[..b.size];
    WroteFive([], Head(MAP, 5), Field("ok", BoolItem(true)), Field("error", TextItem("")),
              Field("bundles", BundleArray(bundles)), Field("routes", RouteArray(Published(routes))),
              Field("endpoint", OptionText(endpoint)), payload);
    assert [] + ResponseItem(true, "", bundles, Published(routes), endpoint) ==
      ResponseItem(true, "", bundles, Published(routes), endpoint);
  }

  method WriteFlag(b: Buffer, ok: bool)
    requires b.Valid()
    modifies b, b.data
    ensures b.Valid() && b.Contents() == old(b.Contents()) + Field("ok", BoolItem(ok))
    ensures b.data == old(b.data) || fresh(b.data)
  {
    hide TextItem, BoolItem;
    ghost var before := b.Contents();
    b.WriteText("ok");
    b.WriteBool(ok);
    assert before + TextItem("ok") + BoolItem(ok) == before + Field("ok", BoolItem(ok));
  }

  method WriteRoutesField(b: Buffer, routes: seq<Route>)
    requires b.Valid() && WireRoutes(routes)
    modifies b, b.data
    ensures b.Valid() && b.Contents() == old(b.Contents()) + Field("routes", RouteArray(Published(routes)))
    ensures b.data == old(b.data) || fresh(b.data)
  {
    hide TextItem, RouteArray, Published;
    ghost var before := b.Contents();
    b.WriteText("routes");
    WriteRoutes(b, routes);
    ghost var rs := RouteArray(Published(routes));
    assert before + TextItem("routes") + rs == before + Field("routes", rs);
  }

  /** etb_response_encode_error */
  method EncodeError(message: string) returns (payload: bytes)
    requires WireText(message)
    ensures payload == ResponseItem(false, message, [], [], None)
  {
    hide Field, TextItem, OptionText, BoolItem, Head, BundleArray, RouteArray;
    var b := new Buffer();
    b.WriteHead(MAP, 5);
    WriteFlag(b, false);
    WriteTextField(b, "error", message);
    WriteBundles(b, []);
    WriteRoutesField(b, []);
    WriteOptionField(b, "endpoint", None);
    payload := b.data[..b.size];
    WroteFive([], Head(MAP, 5), Field("ok", BoolItem(false)), Field("error", TextItem(message)),
              Field("bundles", BundleArray([])), Field("routes", RouteArray([])), Field("endpoint", OptionText(None)),
              payload);
    assert [] + ResponseItem(false, message, [], [], None) == ResponseItem(false, message, [], [], None);
  }

  // ---------- The readers ----------

  method TakeBundleEntry(c: Cursor, p: Partial) returns (ok: bool, q: Partial)
    modifies c
    ensures ok <==> BundleEntry(c.data, old(c.offset), p).Some?
    ensures ok ==> BundleEntry(c.data, old(c.offset), p).value == Read(q, c.offset)
  {
    hide ReadText, ReadBytes;
    q := p;
    var key, text, data;
    ok, key := c.TakeText();
    if !ok {
      return;
    }
    if key == "trace" || key == "proof" {
      var none := c.TakeNull();
      if none {
        return;
      }
    }
    if key == "cert" || key == "proof" {
      ok, data := c.TakeBytes(BYTES);
      q := if key == "cert" then p.(cert := Some(data)) else p.(proof := data);
    } else if key == "node" || key == "query" || key == "trace" {
      ok, text := c.TakeText();
      q := if key == "node" then p.(node := Some(text))
           else if key == "query" then p.(query := Some(text))
           else p.(trace := Some(text));
    } else {
      ok := false;
    }
  }

  /** etb_decode_bundle */
  method TakeBundle(c: Cursor) returns (ok: bool, b: Bundle)
    modifies c
    ensures ok <==> ReadBundle(c.data, old(c.offset)).Some?
    ensures ok ==> ReadBundle(c.data, old(c.offset)).value == Read(b, c.offset)
  {
    hide BundleEntry, ReadHead;
    b := Bundle("", "", None, [], []);
    var n;
    ok, n := c.TakeHead(MAP);
    if !ok {
      return;
    }
    ghost var start := c.offset;
    var p := NoFields();
    var i := 0;
    while i < n
      invariant 0 <= i <= n
      invariant Repeat(BundleEntry, c.data, c.offset, n - i, p) == Repeat(BundleEntry, c.data, start, n, NoFields())
    {
      RepeatStep(BundleEntry, c.data, c.offset, n - i, p);
      ok, p := TakeBundleEntry(c, p);
      if !ok {
        return;
      }
      i := i + 1;
    }
    RepeatNone(BundleEntry, c.data, c.offset, p);
    if p.node.None? || p.query.None? || p.cert.None? {
      return false, b;
    }
    b := Bundle(p.node.value, p.query.value, p.trace, p.cert.value, p.proof);
  }

  method TakeRoute(c: Cursor) returns (ok: bool, r: Route)
    modifies c
    ensures ok <==> RouteElement(c.data, old(c.offset), []).Some?
    ensures ok ==> forall rs :: RouteElement(c.data, old(c.offset), rs) == Some(Read(WithRoute(rs, r), c.offset))
  {
    hide RouteEntry, ReadHead;
    r := Route("", "");
    var n;
    ok, n := c.TakeHead(MAP);
    if !ok {
      return;
    }
    ghost var start := c.offset;
    var e := Ends(None, None);
    var i := 0;
    while i < n
      invariant 0 <= i <= n
      invariant Repeat(RouteEntry, c.data, c.offset, n - i, e) == Repeat(RouteEntry, c.data, start, n, Ends(None, None))
    {
      RepeatStep(RouteEntry, c.data, c.offset, n - i, e);
      ok, e := TakeRouteEntry(c, e);
      if !ok {
        return;
      }
      i := i + 1;
    }
    RepeatNone(RouteEntry, c.data, c.offset, e);
    if e.principal.None? || e.endpoint.None? {
      return false, r;
    }
    r := Route(e.principal.value, e.endpoint.value);
  }

  method TakeRouteEntry(c: Cursor, e: Ends) returns (ok: bool, f: Ends)
    modifies c
    ensures ok <==> RouteEntry(c.data, old(c.offset), e).Some?
    ensures ok ==> RouteEntry(c.data, old(c.offset), e).value == Read(f, c.offset)
  {
    hide ReadText;
    f := e;
    var key, text;
    ok, key := c.TakeText();
    if !ok {
      return;
    }
    if key == "principal" {
      ok, text := c.TakeText();
      f := e.(principal := Some(text));
    } else if key == "endpoint" {
      ok, text := c.TakeText();
      f := e.(endpoint := Some(text));
    } else {
      ok := false;
    }
  }

  /** etb_decode_routes */
  method TakeRoutes(c: Cursor) returns (ok: bool, routes: RouteMap)
    modifies c
    ensures fresh(routes)
    ensures ok <==> ReadRoutes(c.data, old(c.offset)).Some?
    ensures ok ==> ReadRoutes(c.data, old(c.offset)).value == Read(routes.items, c.offset)
  {
    hide RouteElement, ReadHead, WithRoute;
    routes := new RouteMap();
    var n;
    ok, n := c.TakeHead(ARRAY);
    if !ok {
      return;
    }
    ghost var start := c.offset;
    var i := 0;
    while i < n
      invariant 0 <= i <= n && fresh(routes)
      invariant Repeat(RouteElement, c.data, c.offset, n - i, routes.items) ==
        Repeat(RouteElement, c.data, start, n, [])
    {
      RepeatStep(RouteElement, c.data, c.offset, n - i, routes.items);
      ElementFails(c.data, c.offset, routes.items);
      var r;
      ok, r := TakeRoute(c);
      if !ok {
        return;
      }
      routes.Add(r);
      i := i + 1;
    }
    RepeatNone(RouteElement, c.data, c.offset, routes.items);
  }

  lemma ElementFails(d: bytes, o: nat, rs: seq<Route>)
    ensures RouteElement(d, o, rs).None? <==> RouteElement(d, o, []).None?
  {
  }

  /** The array of bundles of a response (source lines 1123-1149). */
  method TakeBundles(c: Cursor, list: BundleList) returns (ok: bool)
    modifies c, list
    ensures var r := BundlesAt(c.data, old(c.offset), old(list.items)); ok <==> r.Some?
    ensures var r := BundlesAt(c.data, old(c.offset), old(list.items)); ok ==> r.value == Read(list.items, c.offset)
  {
    hide ReadBundle, ReadHead, WithBundle;
    var n;
    ok, n := c.TakeHead(ARRAY);
    if !ok {
      return;
    }
    ghost var start := c.offset;
    var i := 0;
    while i < n
      invariant 0 <= i <= n
      invariant Repeat(BundleElement, c.data, c.offset, n - i, list.items) ==
        Repeat(BundleElement, c.data, start, n, old(list.items))
    {
      RepeatStep(BundleElement, c.data, c.offset, n - i, list.items);
      var b;
      ok, b := TakeBundle(c);
      if !ok {
        return;
      }
      list.AddCopy(b);
      i := i + 1;
    }
    RepeatNone(BundleElement, c.data, c.offset, list.items);
  }

  /** etb_decode_response */
  method DecodeResponse(payload: bytes, room: nat)
    returns (ok: bool, bundles: BundleList, routes: RouteMap, endpoint: string)
    ensures fresh(bundles) && fresh(routes)
    ensures ok <==> ReadResponse(payload, room).Some?
    ensures ok ==> ReadResponse(payload, room) == Some(Response(bundles.items, routes.items, endpoint))
  {
    hide ReplyEntry, ReadHead;
    bundles := new BundleList();
    routes := new RouteMap();
    endpoint := "";
    var sawOk, yes := false, false;
    var c := new Cursor(payload);
    var n;
    ok, n := c.TakeHead(MAP);
    if !ok {
      return;
    }
    ghost var start := c.offset;
    ghost var initial := Reply(false, false, [], [], "", room);
    var i := 0;
    while i < n
      invariant 0 <= i <= n && fresh(c) && fresh(bundles) && fresh(routes)
      invariant Repeat(ReplyEntry, payload, c.offset, n - i,
                       Reply(sawOk, yes, bundles.items, routes.items, endpoint, room)) ==
        Repeat(ReplyEntry, payload, start, n, initial)
    {
      RepeatStep(ReplyEntry, payload, c.offset, n - i, Reply(sawOk, yes, bundles.items, routes.items, endpoint, room));
      ok, sawOk, yes, endpoint := TakeReplyEntry(c, sawOk, yes, bundles, routes, endpoint, room);
      if !ok {
        return;
      }
      i := i + 1;
    }
    RepeatNone(ReplyEntry, payload, c.offset, Reply(sawOk, yes, bundles.items, routes.items, endpoint, room));
    ok := sawOk && yes;
  }

  method TakeReplyEntry(c: Cursor, sawOk: bool, yes: bool, bundles: BundleList, routes: RouteMap, endpoint: string,
                        room: nat)
    returns (ok: bool, sawOk': bool, yes': bool, endpoint': string)
    modifies c, bundles, routes
    ensures var r := ReplyEntry(c.data, old(c.offset),
                                Reply(sawOk, yes, old(bundles.items), old(routes.items), endpoint, room));
      ok <==> r.Some?
    ensures var r := ReplyEntry(c.data, old(c.offset),
                                Reply(sawOk, yes, old(bundles.items), old(routes.items), endpoint, room));
      ok ==> r.value == Read(Reply(sawOk', yes', bundles.items, routes.items, endpoint', room), c.offset)
  {
    hide ReadText, ReadBool, ReadRoutes, Repeat, WithRoutes, ReadHead;
    sawOk', yes', endpoint' := sawOk, yes, endpoint;
    var key, text;
    ok, key := c.TakeText();
    if !ok {
      return;
    }
    if key == "ok" {
      ok, yes' := c.TakeBool();
      sawOk' := true;
    } else if key == "error" {
      ok, text := c.TakeText();
    } else if key == "bundles" {
      ok := TakeBundles(c, bundles);
    } else if key == "routes" {
      var decoded;
      ok, decoded := TakeRoutes(c);
      if ok {
        routes.Merge(decoded.items);
      }
    } else if key == "endpoint" {
      var none := c.TakeNull();
      if !none {
        ok, text := c.TakeText();
        endpoint' := Clipped(room, text);
      }
    } else {
      ok := false;
    }
  }

  /** What DecodeResponse makes of what EncodeOk wrote. */
  method ResponseRoundTrip(bundles: BundleList, routes: RouteMap, endpoint: Option<string>, room: nat)
    returns (ok: bool, bundles': BundleList, routes': RouteMap, endpoint': string)
    requires WireBundles(bundles.items) && WireRoutes(routes.items) && (endpoint.Some? ==> WireText(endpoint.value))
    requires DistinctKeys(bundles.items) && DistinctPrincipals(routes.items)
    ensures ok && bundles'.items == bundles.items && routes'.items == Published(routes.items)
    ensures endpoint' == if endpoint.None? then "" else Clipped(room, endpoint.value)
  {
    hide ResponseItem, ReadResponse;
    var payload := EncodeOk(bundles.items, routes.items, endpoint);
    PublishedRoutes(routes.items);
    ResponseReads(true, "", bundles.items, Published(routes.items), endpoint, room);
    ok, bundles', routes', endpoint' := DecodeResponse(payload, room);
  }

  /** What is published is what was there with a name and an endpoint, in the same order. */
  lemma {:induction false} PublishedRoutes(rs: seq<Route>)
    ensures forall r :: r in Published(rs) <==> r in rs && r.principal != "" && r.endpoint != ""
    ensures WireRoutes(rs) ==> WireRoutes(Published(rs))
    ensures DistinctPrincipals(rs) ==> DistinctPrincipals(Published(rs))
  {
    if rs != [] {
      PublishedRoutes(rs[..|rs| - 1]);
      assert rs == rs[..|rs| - 1] + [rs[|rs| - 1]];
      var front := Published(rs[..|rs| - 1]);
      forall i | DistinctPrincipals(rs) && 0 <= i < |front|
        ensures front[i].principal != rs[|rs| - 1].principal
      {
        assert front[i] in front;
        assert front[i] in rs[..|rs| - 1];
      }
      forall i | 0 <= i < |Published(rs)| && WireRoutes(rs)
        ensures WireText(Published(rs)[i].principal) && WireText(Published(rs)[i].endpoint)
      {
        assert Published(rs)[i] in Published(rs);
        assert Published(rs)[i] in rs;
      }
    }
  }
}
