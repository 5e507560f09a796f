/** How `New` assembles the pipeline of a connection, and what
    `parseEventsWithPipeline` makes of a fetched calendar. */
module Feed {
  import opened Text
  import opened Records
  import opened Reconcile
  import opened Pipeline

  // ---------------------------------------------------------------- assembly

  datatype TransformerConfig = TransformerConfig(kind: string, options: map<string, string>)

  function OptionOf(options: map<string, string>, name: string): string {
    if name in options then options[name] else ""
  }

  /** The registered factories. `hash` is the source prefix of a URL. */
  function NewTransformer(kind: string, options: map<string, string>, hash: string -> string): Option<Transformer> {
    if kind == "filter-private" then Some(FilterPrivate)
    else if kind == "mask-private" then
      var summary := OptionOf(options, "summary");
      Some(MaskPrivate(if summary == "" then "Busy" else summary))
    else if kind == "prefix-uid" then
      var prefix, url := OptionOf(options, "prefix"), OptionOf(options, "source_url");
      Some(PrefixUid(if prefix == "" && url != "" then hash(url) else prefix))
    else if kind == "filter-category" then
      Some(FilterCategory(if "categories" in options then set c <- Split(options["categories"], ',') :: TrimSpace(c) else {}))
    else if kind == "prefix-summary" then Some(PrefixSummary(OptionOf(options, "prefix")))
    else None
  }

  /** A `prefix-uid` without prefix gets the source's. */
  function WithPrefix(c: TransformerConfig, prefix: string): map<string, string> {
    if c.kind == "prefix-uid" && OptionOf(c.options, "prefix") == "" then c.options["prefix" := prefix] else c.options
  }

  function Configured(cs: seq<TransformerConfig>, prefix: string, hash: string -> string): seq<Transformer> {
    if cs == [] then []
    else
      var front := Configured(cs[..|cs| - 1], prefix, hash);
      var c := cs[|cs| - 1];
      var tr := NewTransformer(c.kind, WithPrefix(c, prefix), hash);
      if tr.Some? then front + [tr.value] else front
  }

  predicate HidesByName(c: TransformerConfig) {
    c.kind == "filter-private" || c.kind == "mask-private"
  }

  predicate AnyHides(cs: seq<TransformerConfig>) {
    exists c <- cs :: HidesByName(c)
  }

  /** The list of transformers of a connection. */
  function Assembled(filterPrivate: bool, prefix: string, source: seq<TransformerConfig>, dest: seq<TransformerConfig>, hash: string -> string): seq<Transformer> {
    (if filterPrivate && !AnyHides(dest) && !AnyHides(source) then [FilterPrivate] else [])
    + [PrefixUid(prefix)] + Configured(source, prefix, hash) + Configured(dest, prefix, hash)
  }

  method MentionsPrivate(cs: seq<TransformerConfig>) returns (found: bool)
    ensures found <==> AnyHides(cs)
  {
    for i := 0 to |cs|
      invariant forall c <- cs[..i] :: !HidesByName(c)
    {
      if HidesByName(cs[i]) { return true; }
    }
    assert cs[..|cs|] == cs;
    found := false;
  }

  /** Adds the configured transformers; an unknown kind is skipped with a warning. */
  method AddConfigured(pipeline: TransformPipeline, cs: seq<TransformerConfig>, prefix: string, hash: string -> string)
    modifies pipeline
    ensures pipeline.transformers == old(pipeline.transformers) + Configured(cs, prefix, hash)
  {
    for i := 0 to |cs|
      invariant pipeline.transformers == old(pipeline.transformers) + Configured(cs[..i], prefix, hash)
    {
      assert cs[..i + 1][..i] == cs[..i];
      var tr := NewTransformer(cs[i].kind, WithPrefix(cs[i], prefix), hash);
      if tr.Some? {
        pipeline.Add(tr.value);
      }
    }
    assert cs[..|cs|] == cs;
  }

  method BuildPipeline(filterPrivate: bool, prefix: string, source: seq<TransformerConfig>, dest: seq<TransformerConfig>, hash: string -> string)
    returns (pipeline: TransformPipeline)
    ensures fresh(pipeline)
    ensures pipeline.transformers == Assembled(filterPrivate, prefix, source, dest, hash)
  {
    pipeline := new TransformPipeline();
    var hasFilterPrivate := MentionsPrivate(dest);
    if !hasFilterPrivate {
      hasFilterPrivate := MentionsPrivate(source);
    }
    if filterPrivate && !hasFilterPrivate {
      pipeline.Add(FilterPrivate);
    }
    pipeline.Add(PrefixUid(prefix));
    AddConfigured(pipeline, source, prefix, hash);
    AddConfigured(pipeline, dest, prefix, hash);
  }

  /** What becomes of the configured kinds and their options. */
  lemma {:induction false} NewTransformerIs(kind: string, options: map<string, string>, hash: string -> string)
    ensures (NewTransformer(kind, options, hash).None? <==>
               kind !in {"filter-private", "mask-private", "prefix-uid", "filter-category", "prefix-summary"})
    ensures NewTransformer("filter-private", options, hash) == Some(FilterPrivate)
    ensures NewTransformer("mask-private", options, hash) ==
              Some(MaskPrivate(if Get(options, "summary") in {None, Some("")} then "Busy" else options["summary"]))
    ensures NewTransformer("prefix-uid", options, hash) ==
              Some(PrefixUid(if Get(options, "prefix") !in {None, Some("")} then options["prefix"]
                             else if Get(options, "source_url") !in {None, Some("")} then hash(options["source_url"]) else ""))
    ensures NewTransformer("prefix-summary", options, hash) == Some(PrefixSummary(if "prefix" in options then options["prefix"] else ""))
    ensures "categories" !in options ==> NewTransformer("filter-category", options, hash) == Some(FilterCategory({}))
  {
  }

  /** Configured categories are those between the commas, trimmed. */
  lemma {:induction false} CategoriesConfigured(cats: seq<string>, options: map<string, string>, hash: string -> string)
    requires cats != [] && forall c <- cats :: ',' !in c
    ensures NewTransformer("filter-category", options["categories" := Join(cats, ',')], hash) ==
            Some(FilterCategory(set c <- cats :: TrimSpace(c)))
  {
    SplitIs(Join(cats, ','), ',', cats);
    var all := options["categories" := Join(cats, ',')];
    assert Split(all["categories"], ',') == cats;
    var tr := NewTransformer("filter-category", all, hash);
    assert tr.Some? && tr.value.FilterCategory?;
    assert tr.value.allowed == set c <- cats :: TrimSpace(c);
  }

  /** The transformer that one configured entry adds, if any. */
  function Added(c: TransformerConfig, prefix: string, hash: string -> string): seq<Transformer> {
    var tr := NewTransformer(c.kind, WithPrefix(c, prefix), hash);
    if tr.Some? then [tr.value] else []
  }

  lemma ConfiguredSnoc(cs: seq<TransformerConfig>, prefix: string, hash: string -> string)
    requires cs != []
    ensures Configured(cs, prefix, hash) == Configured(cs[..|cs| - 1], prefix, hash) + Added(cs[|cs| - 1], prefix, hash)
  {
  }

  /** Entry by entry, in order; a `prefix-uid` that names no prefix gets the source's. */
  lemma {:induction false} ConfiguredIs(a: seq<TransformerConfig>, b: seq<TransformerConfig>, c: TransformerConfig, prefix: string, hash: string -> string)
    ensures Configured(a + b, prefix, hash) == Configured(a, prefix, hash) + Configured(b, prefix, hash)
    ensures var options := if c.kind == "prefix-uid" && Get(c.options, "prefix") in {None, Some("")} then c.options["prefix" := prefix] else c.options;
            var tr := NewTransformer(c.kind, options, hash);
            Configured([c], prefix, hash) == if tr.Some? then [tr.value] else []
    decreases |b|
  {
    assert [c][..0] == [];
    if b == [] {
      assert a + b == a;
    } else {
      assert (a + b)[..|a + b| - 1] == a + b[..|b| - 1];
      ConfiguredIs(a, b[..|b| - 1], c, prefix, hash);
      ConfiguredSnoc(a + b, prefix, hash);
      ConfiguredSnoc(b, prefix, hash);
    }
  }

  lemma AddedIs(c: TransformerConfig, prefix: string, hash: string -> string)
    ensures FilterPrivate in Added(c, prefix, hash) <==> c.kind == "filter-private"
    ensures (exists tr <- Added(c, prefix, hash) :: tr.MaskPrivate?) <==> c.kind == "mask-private"
    ensures Prefixes(Added(c, prefix, hash)) == if c.kind == "prefix-summary" && "prefix" in c.options then c.options["prefix"] else ""
  {
    var trs := Added(c, prefix, hash);
    if trs != [] {
      assert trs[0] in trs && trs[1..] == [];
      assert "" + (if trs[0].PrefixSummary? then trs[0].prefix else "") == if trs[0].PrefixSummary? then trs[0].prefix else "";
    }
  }

  lemma {:induction false} ConfiguredFilters(cs: seq<TransformerConfig>, prefix: string, hash: string -> string)
    ensures FilterPrivate in Configured(cs, prefix, hash) <==> exists c <- cs :: c.kind == "filter-private"
    ensures (exists tr <- Configured(cs, prefix, hash) :: tr.MaskPrivate?) <==> exists c <- cs :: c.kind == "mask-private"
  {
    if cs != [] {
      var n := |cs| - 1;
      var front, last := Configured(cs[..n], prefix, hash), Added(cs[n], prefix, hash);
      ConfiguredFilters(cs[..n], prefix, hash);
      ConfiguredSnoc(cs, prefix, hash);
      AddedIs(cs[n], prefix, hash);
      assert cs == cs[..n] + [cs[n]];
      assert forall tr :: tr in front + last <==> tr in front || tr in last;
      assert forall c :: c in cs <==> c in cs[..n] || c == cs[n];
    }
  }

  /** A pipeline filters private events exactly if that is configured, or if `filter_private` is on and neither filtering nor masking is. */
  lemma {:induction false} AssembledFilters(filterPrivate: bool, prefix: string, source: seq<TransformerConfig>, dest: seq<TransformerConfig>, hash: string -> string)
    ensures FilterPrivate in Assembled(filterPrivate, prefix, source, dest, hash) <==>
            || (exists c <- source + dest :: c.kind == "filter-private")
            || (filterPrivate && forall c <- source + dest :: c.kind != "filter-private" && c.kind != "mask-private")
  {
    ConfiguredFilters(source, prefix, hash);
    ConfiguredFilters(dest, prefix, hash);
    assert forall c :: c in source + dest <==> c in source || c in dest;
  }

  /** A pipeline puts the destination's summary prefixes before the source's, the last one of each first. */
  lemma {:induction false} PrefixesOfConcat(a: seq<Transformer>, b: seq<Transformer>)
    ensures Prefixes(a + b) == Prefixes(b) + Prefixes(a)
  {
    if a == [] {
      assert a + b == b;
      assert Prefixes(b) + "" == Prefixes(b);
    } else {
      assert (a + b)[1..] == a[1..] + b;
      PrefixesOfConcat(a[1..], b);
    }
  }

  /** The configured summary prefixes, the last one first. */
  function PrefixesAsked(cs: seq<TransformerConfig>): string {
    if cs == [] then ""
    else
      var c := cs[|cs| - 1];
      (if c.kind == "prefix-summary" && "prefix" in c.options then c.options["prefix"] else "") + PrefixesAsked(cs[..|cs| - 1])
  }

  lemma {:induction false} ConfiguredPrefixes(cs: seq<TransformerConfig>, prefix: string, hash: string -> string)
    ensures Prefixes(Configured(cs, prefix, hash)) == PrefixesAsked(cs)
  {
    if cs != [] {
      var n := |cs| - 1;
      ConfiguredPrefixes(cs[..n], prefix, hash);
      ConfiguredSnoc(cs, prefix, hash);
      PrefixesOfConcat(Configured(cs[..n], prefix, hash), Added(cs[n], prefix, hash));
      AddedIs(cs[n], prefix, hash);
    }
  }

  lemma {:induction false} AssembledPrefixes(filterPrivate: bool, prefix: string, source: seq<TransformerConfig>, dest: seq<TransformerConfig>, hash: string -> string)
    ensures Prefixes(Assembled(filterPrivate, prefix, source, dest, hash)) == PrefixesAsked(dest) + PrefixesAsked(source)
  {
    var auto := if filterPrivate && !AnyHides(dest) && !AnyHides(source) then [FilterPrivate] else [];
    var a, s, d := auto + [PrefixUid(prefix)], Configured(source, prefix, hash), Configured(dest, prefix, hash);
    PrefixesOfConcat(auto, [PrefixUid(prefix)]);
    assert [PrefixUid(prefix)][1..] == [] && auto[..0] == [] && (auto != [] ==> auto[1..] == []);
    assert Prefixes(a) == "";
    PrefixesOfConcat(a, s);
    PrefixesOfConcat(a + s, d);
    ConfiguredPrefixes(source, prefix, hash);
    ConfiguredPrefixes(dest, prefix, hash);
    assert PrefixesAsked(source) + "" == PrefixesAsked(source);
  }

  lemma {:induction false} ConfiguredHides(cs: seq<TransformerConfig>, prefix: string, hash: string -> string)
    requires AnyHides(cs)
    ensures exists tr <- Configured(cs, prefix, hash) :: Hides(tr)
  {
    var n := |cs| - 1;
    var tr := NewTransformer(cs[n].kind, WithPrefix(cs[n], prefix), hash);
    if HidesByName(cs[n]) {
      assert tr.value in Configured(cs, prefix, hash) && Hides(tr.value);
    } else {
      assert AnyHides(cs[..n]) by {
        var c :| c in cs && HidesByName(c);
        assert c in cs[..n];
      }
      ConfiguredHides(cs[..n], prefix, hash);
      var x :| x in Configured(cs[..n], prefix, hash) && Hides(x);
      assert x in Configured(cs, prefix, hash);
    }
  }

  /** Every pipeline built under `filter_private` filters or masks private events. */
  lemma AssembledHides(prefix: string, source: seq<TransformerConfig>, dest: seq<TransformerConfig>, hash: string -> string)
    ensures exists tr <- Assembled(true, prefix, source, dest, hash) :: Hides(tr)
  {
    var all := Assembled(true, prefix, source, dest, hash);
    if AnyHides(source) {
      ConfiguredHides(source, prefix, hash);
      var x :| x in Configured(source, prefix, hash) && Hides(x);
      assert x in all;
    } else if AnyHides(dest) {
      ConfiguredHides(dest, prefix, hash);
      var x :| x in Configured(dest, prefix, hash) && Hides(x);
      assert x in all;
    } else {
      assert all[0] == FilterPrivate && all[0] in all && Hides(all[0]);
    }
  }

  /** The prefix that the last `prefix-uid` of a list asks for, which may be none of its own. */
  function LastAsked(cs: seq<TransformerConfig>): Option<string> {
    if cs == [] then None
    else if cs[|cs| - 1].kind == "prefix-uid" then Some(OptionOf(cs[|cs| - 1].options, "prefix"))
    else LastAsked(cs[..|cs| - 1])
  }

  /** The user does not ask for a UID prefix other than the source's in the end. */
  predicate KeepsPrefix(source: seq<TransformerConfig>, dest: seq<TransformerConfig>, prefix: string) {
    (if LastAsked(dest).Some? then LastAsked(dest) else LastAsked(source)) in {None, Some(""), Some(prefix)}
  }

  lemma {:induction false} LastPrefixOfConcat(a: seq<Transformer>, b: seq<Transformer>)
    ensures LastPrefix(a + b) == if LastPrefix(b).Some? then LastPrefix(b) else LastPrefix(a)
    decreases |b|
  {
    if b == [] {
      assert a + b == a;
    } else {
      assert (a + b)[..|a + b| - 1] == a + b[..|b| - 1];
      LastPrefixOfConcat(a, b[..|b| - 1]);
    }
  }

  lemma {:induction false} ConfiguredPrefix(cs: seq<TransformerConfig>, prefix: string, hash: string -> string)
    requires prefix != ""
    ensures LastPrefix(Configured(cs, prefix, hash)) == if LastAsked(cs) == Some("") then Some(prefix) else LastAsked(cs)
  {
    if cs != [] {
      var n := |cs| - 1;
      ConfiguredPrefix(cs[..n], prefix, hash);
      var tr := NewTransformer(cs[n].kind, WithPrefix(cs[n], prefix), hash);
      if tr.Some? {
        var front := Configured(cs[..n], prefix, hash);
        assert (front + [tr.value])[..|front|] == front;
      }
    }
  }

  /** The last prefix of a pipeline is the source's exactly if no other is asked for in the end. */
  lemma AssembledPrefix(filterPrivate: bool, prefix: string, source: seq<TransformerConfig>, dest: seq<TransformerConfig>, hash: string -> string)
    requires prefix != ""
    ensures LastPrefix(Assembled(filterPrivate, prefix, source, dest, hash)) == Some(prefix) <==> KeepsPrefix(source, dest, prefix)
  {
    var auto := if filterPrivate && !AnyHides(dest) && !AnyHides(source) then [FilterPrivate] else [];
    var a := auto + [PrefixUid(prefix)];
    var s, d := Configured(source, prefix, hash), Configured(dest, prefix, hash);
    ConfiguredPrefix(source, prefix, hash);
    ConfiguredPrefix(dest, prefix, hash);
    LastPrefixOfConcat(auto, [PrefixUid(prefix)]);
    LastPrefixOfConcat(a, s);
    LastPrefixOfConcat(a + s, d);
  }

  // ---------------------------------------------------------------- parsing

  /** A component as a single-event calendar, if it passes the pipeline, has a UID and can be encoded. */
  function EventOf(c: Comp, trs: seq<Transformer>, encode: Comp -> Option<string>): Option<Content> {
    if c.name != "VEVENT" then None
    else
      var props := Apply(trs, c.props);
      if props.None? then None
      else
        var uid, body := TextOrEmpty(props.value, "UID"), encode(c.(props := props.value));
        if uid == "" || body.None? then None else Some(Content(uid, body.value))
  }

  /** Exactly when a component comes out as this event. */
  lemma {:induction false} EventOfIs(c: Comp, trs: seq<Transformer>, encode: Comp -> Option<string>, e: Content)
    ensures EventOf(c, trs, encode) == Some(e) <==>
            && c.name == "VEVENT" && Apply(trs, c.props).Some?
            && var props := Apply(trs, c.props).value;
            && "UID" in props && props["UID"] != [] && props["UID"][0].text == Some(e.uid) && e.uid != ""
            && encode(Comp(c.name, props, c.children)) == Some(e.body)
  {
  }

  /** The events of a feed by UID. Of several with one UID the last wins. */
  function ParseEvents(feed: seq<Comp>, trs: seq<Transformer>, encode: Comp -> Option<string>): map<string, Content> {
    if feed == [] then map[]
    else
      var front := ParseEvents(feed[..|feed| - 1], trs, encode);
      var e := EventOf(feed[|feed| - 1], trs, encode);
      if e.Some? then front[e.value.uid := e.value] else front
  }

  ghost function Values(comps: seq<Component>): seq<Comp>
    reads comps
  {
    seq(|comps|, i requires 0 <= i < |comps| reads comps => comps[i].Value())
  }

  /** The loop of the source. The component objects of the feed are not changed. */
  method ParseWithPipeline(comps: seq<Component>, pipeline: TransformPipeline, encode: Comp -> Option<string>)
    returns (events: map<string, Content>)
    ensures events == ParseEvents(Values(comps), pipeline.transformers, encode)
  {
    events := map[];
    ghost var feed := Values(comps);
    for i := 0 to |comps|
      invariant events == ParseEvents(feed[..i], pipeline.transformers, encode)
    {
      assert feed[..i + 1][..i] == feed[..i] && feed[i] == comps[i].Value();
      if comps[i].name != "VEVENT" { continue; }
      var transformed := pipeline.ApplyTo(comps[i]);
      if transformed == null { continue; }
      var comp: Component := transformed;
      var uid := TextOf(comp.props, "UID");
      if uid.None? || uid.value == "" { continue; }
      var body := encode(comp.Value());
      if body.None? { continue; }
      events := events[uid.value := Content(uid.value, body.value)];
    }
    assert feed[..|comps|] == feed;
  }

  /** The feed component that supplies an event: the last one that yields its UID. */
  ghost predicate Supplies(feed: seq<Comp>, trs: seq<Transformer>, encode: Comp -> Option<string>, i: nat, e: Content) {
    && i < |feed| && EventOf(feed[i], trs, encode) == Some(e)
    && forall j :: i < j < |feed| ==> EventOf(feed[j], trs, encode).None? || EventOf(feed[j], trs, encode).value.uid != e.uid
  }

  /** A UID has an event exactly if some component supplies it, and that component's. */
  lemma {:induction false} ParsedIsSupplied(feed: seq<Comp>, trs: seq<Transformer>, encode: Comp -> Option<string>, u: string)
    ensures u in ParseEvents(feed, trs, encode) <==> exists i: nat, e :: Supplies(feed, trs, encode, i, e) && e.uid == u
    ensures u in ParseEvents(feed, trs, encode) ==> exists i: nat :: Supplies(feed, trs, encode, i, ParseEvents(feed, trs, encode)[u])
    ensures u in ParseEvents(feed, trs, encode) ==> ParseEvents(feed, trs, encode)[u].uid == u && u != ""
  {
    if feed != [] {
      var n := |feed| - 1;
      var front, last := feed[..n], EventOf(feed[n], trs, encode);
      ParsedIsSupplied(front, trs, encode, u);
      if last.Some? && last.value.uid == u {
        assert Supplies(feed, trs, encode, n, last.value);
      } else {
        forall i: nat, e: Content | e.uid == u
          ensures Supplies(feed, trs, encode, i, e) <==> Supplies(front, trs, encode, i, e)
        {
          assert forall j :: 0 <= j < n ==> feed[j] == front[j];
          assert Supplies(feed, trs, encode, i, e) ==> i != n;
        }
        if u in ParseEvents(front, trs, encode) {
          var i: nat :| Supplies(front, trs, encode, i, ParseEvents(front, trs, encode)[u]);
          assert Supplies(feed, trs, encode, i, ParseEvents(feed, trs, encode)[u]);
        }
      }
    }
  }

  /** What is handed to a destination is well formed. */
  lemma ParsedIsProper(feed: seq<Comp>, trs: seq<Transformer>, encode: Comp -> Option<string>)
    ensures ProperEvents(ParseEvents(feed, trs, encode))
  {
    forall u <- ParseEvents(feed, trs, encode)
      ensures u != "" && ParseEvents(feed, trs, encode)[u].uid == u
    {
      ParsedIsSupplied(feed, trs, encode, u);
    }
  }

  /** Two feeds that differ in the details of private components only. */
  ghost predicate SameButPrivate(f: seq<Comp>, g: seq<Comp>) {
    |f| == |g| && forall i :: 0 <= i < |f| ==>
      f[i] == g[i] || (g[i] == f[i].(props := g[i].props) && SameButDetails(f[i].props, g[i].props))
  }

  /** With a hiding pipeline, everything that reaches a destination is independent of private details. */
  lemma {:induction false} PrivateDetailsStay(f: seq<Comp>, g: seq<Comp>, trs: seq<Transformer>, encode: Comp -> Option<string>)
    requires SameButPrivate(f, g) && exists tr <- trs :: Hides(tr)
    ensures ParseEvents(f, trs, encode) == ParseEvents(g, trs, encode)
  {
    if f != [] {
      var n := |f| - 1;
      assert SameButPrivate(f[..n], g[..n]);
      PrivateDetailsStay(f[..n], g[..n], trs, encode);
      if f[n] != g[n] {
        DetailsDoNotShow(trs, f[n].props, g[n].props);
      }
    }
  }

  /** Conversely, of private events that get through a hiding pipeline all else reaches the destination: other properties and
      sub-components, alarms for instance, whose own texts are not masked. */
  lemma {:induction false} PrivateRestShows(c: Comp, d: Comp, trs: seq<Transformer>, encode: Comp -> Option<string>)
    requires Private(c.props) && Private(d.props) && Get(c.props, "UID") == Get(d.props, "UID") && exists tr <- trs :: Hides(tr)
    requires EventOf(c, trs, encode).Some? && EventOf(d, trs, encode).Some?
    requires forall x, y :: encode(x).Some? && encode(x) == encode(y) ==> x == y
    ensures EventOf(c, trs, encode) == EventOf(d, trs, encode) <==> SameElsewhere(c.props, d.props) && c.children == d.children
  {
    OnlyDetailsHidden(trs, c.props, d.props);
    var x, y := c.(props := Apply(trs, c.props).value), d.(props := Apply(trs, d.props).value);
    if EventOf(c, trs, encode) == EventOf(d, trs, encode) {
      assert encode(x) == encode(y) && x == y;
    }
  }

  /** Every event of a pipeline whose last prefix is the source's carries it, so the listing selects its row. */
  lemma ParsedCarry(feed: seq<Comp>, trs: seq<Transformer>, encode: Comp -> Option<string>, prefix: string, u: string)
    requires LastPrefix(trs) == Some(prefix) && u in ParseEvents(feed, trs, encode)
    ensures Carries(u, prefix) && (NoWildcard(prefix) ==> Selected(u, prefix))
  {
    ParsedIsSupplied(feed, trs, encode, u);
    var i: nat :| Supplies(feed, trs, encode, i, ParseEvents(feed, trs, encode)[u]);
    LastPrefixShows(trs, feed[i].props);
    if NoWildcard(prefix) {
      CarriedIsSelected(u, prefix);
    }
  }
}
