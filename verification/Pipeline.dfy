/** The event transformers, their chaining, and the events a feed yields. */
module Pipeline {
  import opened Text
  import opened Records

  /** One property value: its decoded text, if it decodes, and its encoded form. */
  datatype Prop = Prop(text: Option<string>, raw: string)

  type Props = map<string, seq<Prop>>

  datatype Comp = Comp(name: string, props: Props, children: seq<Comp>)

  function SetText(props: Props, name: string, text: string): Props {
    props[name := [Prop(Some(text), text)]]
  }

  /** The first value of a property; empty when it is absent, `None` when it does not decode. */
  function TextOf(props: Props, name: string): Option<string> {
    if name in props && props[name] != [] then props[name][0].text else Some("")
  }

  function TextOrEmpty(props: Props, name: string): string {
    var t := TextOf(props, name);
    if t.Some? then t.value else ""
  }

  predicate Private(props: Props) {
    TextOrEmpty(props, "CLASS") in {"PRIVATE", "CONFIDENTIAL"}
  }

  datatype Transformer =
    | FilterPrivate
    | MaskPrivate(summary: string)
    | PrefixUid(prefix: string)
    | FilterCategory(allowed: set<string>)
    | PrefixSummary(prefix: string)

  function Masked(props: Props, summary: string): Props {
    SetText(props, "SUMMARY", if summary == "" then "Busy" else summary) - {"DESCRIPTION", "LOCATION", "ATTENDEE"}
  }

  predicate Allows(allowed: set<string>, cats: string) {
    cats != "" && exists c <- Split(cats, ',') :: TrimSpace(c) in allowed
  }

  /** What one transformer makes of the properties; `None` drops the event. */
  function Transform(tr: Transformer, props: Props): Option<Props> {
    match tr
    case FilterPrivate => if Private(props) then None else Some(props)
    case MaskPrivate(summary) => Some(if Private(props) then Masked(props, summary) else props)
    case PrefixUid(prefix) =>
      var uid := TextOrEmpty(props, "UID");
      Some(if uid == "" || Carries(uid, prefix) then props else SetText(props, "UID", prefix + "-" + uid))
    case FilterCategory(allowed) =>
      if allowed == {} || Allows(allowed, TextOrEmpty(props, "CATEGORIES")) then Some(props) else None
    case PrefixSummary(prefix) =>
      var sum := TextOf(props, "SUMMARY");
      Some(if prefix == "" || sum.None? then props else SetText(props, "SUMMARY", prefix + sum.value))
  }

  function Apply(trs: seq<Transformer>, props: Props): Option<Props> {
    if trs == [] then Some(props)
    else
      var next := Transform(trs[0], props);
      if next.None? then None else Apply(trs[1..], next.value)
  }

  // ---------------------------------------------------------------- objects

  /** A calendar component. Its sub-components are shared by clones and never changed. */
  class Component {
    var name: string
    var props: Props
    var children: seq<Comp>

    constructor (name: string, props: Props, children: seq<Comp>)
      ensures this.name == name && this.props == props && this.children == children
    {
      this.name, this.props, this.children := name, props, children;
    }

    function Value(): Comp
      reads this
    {
      Comp(name, props, children)
    }

    method Clone() returns (clone: Component)
      ensures fresh(clone) && clone.Value() == Value()
    {
      var copy: Props := map[];
      var rest := props.Keys;
      while rest != {}
        invariant rest <= props.Keys
        invariant copy.Keys == props.Keys - rest
        invariant forall k <- copy :: copy[k] == props[k]
      {
        var k :| k in rest;
        copy := copy[k := props[k]];
        rest := rest - {k};
      }
      assert copy == props;
      clone := new Component(name, copy, children);
    }
  }

  method MaskedClone(comp: Component, summary: string) returns (clone: Component)
    ensures fresh(clone) && clone.Value() == comp.Value().(props := Masked(comp.props, summary))
  {
    clone := comp.Clone();
    clone.props := SetText(clone.props, "SUMMARY", summary);
    if summary == "" {
      clone.props := SetText(clone.props, "SUMMARY", "Busy");
    }
    clone.props := clone.props - {"DESCRIPTION"};
    clone.props := clone.props - {"LOCATION"};
    clone.props := clone.props - {"ATTENDEE"};
    SameMap(clone.props, Masked(comp.props, summary));
  }

  method ClonedWith(comp: Component, name: string, text: string) returns (clone: Component)
    ensures fresh(clone) && clone.Value() == comp.Value().(props := SetText(comp.props, name, text))
  {
    clone := comp.Clone();
    clone.props := SetText(clone.props, name, text);
  }

  /** The transformer on objects: the input is never written to; a changed component is a fresh one. */
  method TransformComponent(tr: Transformer, comp: Component) returns (out: Component?)
    ensures out == null <==> Transform(tr, comp.props).None?
    ensures out != null ==> out.Value() == comp.Value().(props := Transform(tr, comp.props).value)
    ensures out != null ==> out == comp || fresh(out)
  {
    out := comp;
    match tr
    case FilterPrivate =>
      if Private(comp.props) { return null; }
    case MaskPrivate(summary) =>
      if Private(comp.props) {
        out := MaskedClone(comp, summary);
      }
    case PrefixUid(prefix) =>
      var uid := TextOf(comp.props, "UID");
      if uid.None? || uid.value == "" || Carries(uid.value, prefix) { return comp; }
      out := ClonedWith(comp, "UID", prefix + "-" + uid.value);
    case FilterCategory(allowed) =>
      if allowed != {} {
        var kept := CategoryAllowed(allowed, TextOrEmpty(comp.props, "CATEGORIES"));
        if !kept { return null; }
      }
    case PrefixSummary(prefix) =>
      var sum := TextOf(comp.props, "SUMMARY");
      if prefix != "" && sum.Some? {
        out := ClonedWith(comp, "SUMMARY", prefix + sum.value);
      }
  }

  method CategoryAllowed(allowed: set<string>, cats: string) returns (kept: bool)
    ensures kept <==> Allows(allowed, cats)
  {
    if cats == "" { return false; }
    var parts := Split(cats, ',');
    for i := 0 to |parts|
      invariant forall c <- parts[..i] :: TrimSpace(c) !in allowed
    {
      if TrimSpace(parts[i]) in allowed { return true; }
    }
    assert parts[..|parts|] == parts;
    return false;
  }

  class TransformPipeline {
    var transformers: seq<Transformer>

    constructor ()
      ensures transformers == []
    {
      transformers := [];
    }

    method Add(tr: Transformer)
      modifies this
      ensures transformers == old(transformers) + [tr]
    {
      transformers := transformers + [tr];
    }

    /** Runs the transformers in order; `null` as soon as one drops the event. */
    method ApplyTo(comp: Component) returns (out: Component?)
      ensures out == null <==> Apply(transformers, comp.props).None?
      ensures out != null ==> out.Value() == comp.Value().(props := Apply(transformers, comp.props).value)
      ensures out != null ==> out == comp || fresh(out)
    {
      var cur := comp;
      for i := 0 to |transformers|
        invariant cur == comp || fresh(cur)
        invariant cur.name == comp.name && cur.children == comp.children
        invariant Apply(transformers, comp.props) == Apply(transformers[i..], cur.props)
      {
        assert transformers[i..][1..] == transformers[i + 1..];
        var next := TransformComponent(transformers[i], cur);
        if next == null { return null; }
        cur := next;
      }
      out := cur;
    }
  }

  // ---------------------------------------------------------------- private details

  const DETAILS := {"SUMMARY", "DESCRIPTION", "LOCATION", "ATTENDEE"}

  /** The properties agree but for the details. */
  ghost predicate SameElsewhere(a: Props, b: Props) {
    forall k: string :: k !in DETAILS ==> Get(a, k) == Get(b, k)
  }

  /** Private components that differ in their details only. */
  ghost predicate SameButDetails(a: Props, b: Props) {
    SameElsewhere(a, b) && Private(a)
  }

  predicate Hides(tr: Transformer) {
    tr.FilterPrivate? || tr.MaskPrivate?
  }

  lemma SameText(a: Props, b: Props, name: string)
    requires SameElsewhere(a, b) && name !in DETAILS
    ensures TextOf(a, name) == TextOf(b, name)
  {
    assert Get(a, name) == Get(b, name);
  }

  lemma SetAlike(a: Props, b: Props, name: string, text: string)
    requires SameElsewhere(a, b)
    ensures SameElsewhere(SetText(a, name, text), SetText(b, name, text))
  {
    forall k: string | k !in DETAILS ensures Get(SetText(a, name, text), k) == Get(SetText(b, name, text), k) {
      assert Get(a, k) == Get(b, k);
    }
  }

  lemma StaysPrivate(a: Props, name: string, text: string)
    requires Private(a) && name != "CLASS"
    ensures Private(SetText(a, name, text))
  {
  }

  lemma MaskEqualises(a: Props, b: Props, summary: string)
    requires SameElsewhere(a, b)
    ensures Masked(a, summary) == Masked(b, summary)
  {
    forall k: string ensures Get(Masked(a, summary), k) == Get(Masked(b, summary), k) {
      if k !in DETAILS {
        assert Get(a, k) == Get(b, k);
      }
    }
    SameMap(Masked(a, summary), Masked(b, summary));
  }

  lemma SummariesMayDiffer(prefix: string, a: Props, b: Props)
    requires SameButDetails(a, b)
    ensures SameButDetails(Transform(PrefixSummary(prefix), a).value, Transform(PrefixSummary(prefix), b).value)
  {
    var a', b' := Transform(PrefixSummary(prefix), a).value, Transform(PrefixSummary(prefix), b).value;
    forall k: string | k !in DETAILS ensures Get(a', k) == Get(b', k) {
      assert Get(a, k) == Get(b, k);
    }
  }

  /** One transformer either tells two such components apart in no way at all, or keeps both and their details. */
  lemma TransformSameButDetails(tr: Transformer, a: Props, b: Props)
    requires SameButDetails(a, b)
    ensures var a', b' := Transform(tr, a), Transform(tr, b);
            if Hides(tr) then a' == b' else (a'.None? <==> b'.None?) && (a'.Some? ==> SameButDetails(a'.value, b'.value))
  {
    SameText(a, b, "CLASS");
    SameText(a, b, "UID");
    SameText(a, b, "CATEGORIES");
    match tr
    case FilterPrivate =>
    case MaskPrivate(summary) => MaskEqualises(a, b, summary);
    case PrefixUid(prefix) =>
      var uid := prefix + "-" + TextOrEmpty(a, "UID");
      SetAlike(a, b, "UID", uid);
      StaysPrivate(a, "UID", uid);
    case FilterCategory(allowed) =>
    case PrefixSummary(prefix) => SummariesMayDiffer(prefix, a, b);
  }

  /** Masking non-interference: whatever else is in the list and in which order, a list with `mask-private` or
      `filter-private` gives the same result for private components that differ in their details only. */
  lemma {:induction false} DetailsDoNotShow(trs: seq<Transformer>, a: Props, b: Props)
    requires SameButDetails(a, b) && exists tr <- trs :: Hides(tr)
    ensures Apply(trs, a) == Apply(trs, b)
  {
    TransformSameButDetails(trs[0], a, b);
    var a', b' := Transform(trs[0], a), Transform(trs[0], b);
    if !Hides(trs[0]) && a'.Some? {
      assert exists tr <- trs[1..] :: Hides(tr) by {
        var tr :| tr in trs && Hides(tr);
        assert tr in trs[1..];
      }
      DetailsDoNotShow(trs[1..], a'.value, b'.value);
    }
  }

  lemma TransformKeepsClass(tr: Transformer, a: Props)
    requires Transform(tr, a).Some?
    ensures Private(Transform(tr, a).value) <==> Private(a)
  {
  }

  /** A list with `filter-private` lets no private component through. */
  lemma {:induction false} FilterStops(trs: seq<Transformer>, a: Props)
    requires FilterPrivate in trs && Private(a)
    ensures Apply(trs, a).None?
  {
    if trs[0] != FilterPrivate && Transform(trs[0], a).Some? {
      assert FilterPrivate in trs[1..];
      TransformKeepsClass(trs[0], a);
      FilterStops(trs[1..], Transform(trs[0], a).value);
    }
  }

  /** Conversely, without `mask-private` whatever passes keeps its description, place and attendees. */
  lemma {:induction false} UnmaskedShows(trs: seq<Transformer>, a: Props, detail: string)
    requires (forall tr <- trs :: !tr.MaskPrivate?) && Apply(trs, a).Some?
    requires detail in {"DESCRIPTION", "LOCATION", "ATTENDEE"}
    ensures Get(Apply(trs, a).value, detail) == Get(a, detail)
  {
    if trs != [] {
      UnmaskedShows(trs[1..], Transform(trs[0], a).value, detail);
    }
  }

  /** Whatever else passes, properties other than the details and the UID are shown as they are. */
  lemma {:induction false} RestShows(trs: seq<Transformer>, a: Props, k: string)
    requires Apply(trs, a).Some? && k !in DETAILS && k != "UID"
    ensures Get(Apply(trs, a).value, k) == Get(a, k)
  {
    if trs != [] {
      RestShows(trs[1..], Transform(trs[0], a).value, k);
    }
  }

  /** What masking hides is the details and no more: of two private components of one UID that pass a masking list, the results
      are equal exactly if they agree elsewhere. */
  lemma {:induction false} OnlyDetailsHidden(trs: seq<Transformer>, a: Props, b: Props)
    requires Private(a) && Private(b) && Get(a, "UID") == Get(b, "UID") && exists tr <- trs :: Hides(tr)
    requires Apply(trs, a).Some? && Apply(trs, b).Some?
    ensures Apply(trs, a) == Apply(trs, b) <==> SameElsewhere(a, b)
  {
    if SameElsewhere(a, b) {
      DetailsDoNotShow(trs, a, b);
    }
    if Apply(trs, a) == Apply(trs, b) {
      forall k: string | k !in DETAILS ensures Get(a, k) == Get(b, k) {
        if k != "UID" {
          RestShows(trs, a, k);
          RestShows(trs, b, k);
        }
      }
    }
  }

  // ---------------------------------------------------------------- what shows of a text

  /** The code reads the first value of a property, and takes none for an empty text. */
  lemma FirstValueCounts(a: Props, name: string, p: Prop, more: seq<Prop>)
    ensures TextOf(a[name := [p] + more], name) == p.text
    ensures name !in a || a[name] == [] ==> TextOf(a, name) == Some("")
  {
  }

  /** Categories joined by commas pass a filter exactly if one of them, trimmed, is allowed; no categories at all never do. */
  lemma {:induction false} CategoriesPass(a: Props, cats: seq<string>, allowed: set<string>)
    requires cats != [] && forall c <- cats :: ',' !in c
    requires TextOf(a, "CATEGORIES") == Some(Join(cats, ','))
    ensures Apply([FilterCategory(allowed)], a) ==
            if allowed == {} || (cats != [""] && exists c <- cats :: TrimSpace(c) in allowed) then Some(a) else None
  {
    SplitIs(Join(cats, ','), ',', cats);
    assert [FilterCategory(allowed)][1..] == [];
    assert |cats| > 1 ==> |Join(cats, ',')| > 0;
  }

  /** The texts that `prefix-summary` puts before a summary, the last one first. */
  function Prefixes(trs: seq<Transformer>): string {
    if trs == [] then "" else Prefixes(trs[1..]) + if trs[0].PrefixSummary? then trs[0].prefix else ""
  }

  /** Where nothing is masked, the prefixes stand before the summary; one that does not decode is left as it is. */
  lemma {:induction false} SummaryShows(trs: seq<Transformer>, a: Props)
    requires Apply(trs, a).Some?
    requires (forall tr <- trs :: !tr.MaskPrivate?) || TextOf(a, "CLASS") !in {Some("PRIVATE"), Some("CONFIDENTIAL")}
    ensures var b, text := Apply(trs, a).value, TextOf(a, "SUMMARY");
            if text.Some? && Prefixes(trs) != "" then
              var shown := Prefixes(trs) + text.value; Get(b, "SUMMARY") == Some([Prop(Some(shown), shown)])
            else Get(b, "SUMMARY") == Get(a, "SUMMARY")
  {
    if trs != [] {
      var next, text := Transform(trs[0], a).value, TextOf(a, "SUMMARY");
      assert trs == [trs[0]] + trs[1..];
      ClassStays(trs[0], a);
      SummaryShows(trs[1..], next);
      var rest := Prefixes(trs[1..]);
      assert rest + "" == rest;
      if text.Some? && trs[0].PrefixSummary? {
        assert rest + (trs[0].prefix + text.value) == (rest + trs[0].prefix) + text.value;
        assert Prefixes(trs) == rest + trs[0].prefix;
        assert rest == "" ==> rest + (trs[0].prefix + text.value) == trs[0].prefix + text.value;
      }
    }
  }

  lemma ClassStays(tr: Transformer, a: Props)
    requires Transform(tr, a).Some?
    ensures TextOf(Transform(tr, a).value, "CLASS") == TextOf(a, "CLASS")
  {
  }

  /** Of a private component that is masked the summary is the last mask's, "Busy" if that has none, behind the prefixes that follow it. */
  lemma {:induction false} MaskShows(front: seq<Transformer>, mask: string, back: seq<Transformer>, a: Props)
    requires TextOf(a, "CLASS") in {Some("PRIVATE"), Some("CONFIDENTIAL")} && forall tr <- back :: !tr.MaskPrivate?
    requires Apply(front + [MaskPrivate(mask)] + back, a).Some?
    ensures TextOf(Apply(front + [MaskPrivate(mask)] + back, a).value, "SUMMARY") == Some(Prefixes(back) + if mask == "" then "Busy" else mask)
    decreases |front|
  {
    var trs := front + [MaskPrivate(mask)] + back;
    if front == [] {
      assert trs[0] == MaskPrivate(mask) && trs[1..] == back;
      SummaryShows(back, Transform(trs[0], a).value);
      var summary := if mask == "" then "Busy" else mask;
      assert "" + summary == summary;
    } else {
      assert trs[0] == front[0] && trs[1..] == front[1..] + [MaskPrivate(mask)] + back;
      ClassStays(front[0], a);
      MaskShows(front[1..], mask, back, Transform(front[0], a).value);
    }
  }

  // ---------------------------------------------------------------- private by RFC 5545

  /** Section 3.8.1.3 of RFC 5545: values are compared without regard to case, and any but PUBLIC counts as private, unrecognised
      ones included. */
  predicate PrivateByRfc(props: Props) {
    && "CLASS" in props && props["CLASS"] != []
    && !(TextOf(props, "CLASS").Some? && ToLower(TextOf(props, "CLASS").value) == "public")
  }

  predicate AllowedByAll(trs: seq<Transformer>, cats: string) {
    forall tr <- trs :: tr.FilterCategory? ==> tr.allowed == {} || Allows(tr.allowed, cats)
  }

  /** A component that the code does not call private is dropped for its categories only, and keeps its details. */
  lemma {:induction false} NotPrivateShows(trs: seq<Transformer>, a: Props, detail: string)
    requires !Private(a) && detail in {"DESCRIPTION", "LOCATION", "ATTENDEE"}
    ensures Apply(trs, a).Some? <==> AllowedByAll(trs, TextOrEmpty(a, "CATEGORIES"))
    ensures Apply(trs, a).Some? ==> Get(Apply(trs, a).value, detail) == Get(a, detail)
  {
    if trs != [] {
      assert trs == [trs[0]] + trs[1..];
      var next := Transform(trs[0], a);
      if next.Some? {
        TransformKeepsClass(trs[0], a);
        assert TextOrEmpty(next.value, "CATEGORIES") == TextOrEmpty(a, "CATEGORIES");
        NotPrivateShows(trs[1..], next.value, detail);
      }
    }
  }

  /** What gets through a list: whatever its categories allow, unless it is private and there is a filter for that. */
  lemma {:induction false} PassesIs(trs: seq<Transformer>, a: Props)
    ensures Apply(trs, a).Some? <==>
            && AllowedByAll(trs, TextOrEmpty(a, "CATEGORIES"))
            && (TextOf(a, "CLASS") in {Some("PRIVATE"), Some("CONFIDENTIAL")} ==> FilterPrivate !in trs)
  {
    if trs != [] {
      assert trs == [trs[0]] + trs[1..];
      var next := Transform(trs[0], a);
      if next.Some? {
        ClassStays(trs[0], a);
        assert TextOrEmpty(next.value, "CATEGORIES") == TextOrEmpty(a, "CATEGORIES");
        PassesIs(trs[1..], next.value);
      }
    }
  }

  lemma {:induction false} StaysAway(trs: seq<Transformer>, a: Props, detail: string)
    requires detail in {"DESCRIPTION", "LOCATION", "ATTENDEE"} && detail !in a && Apply(trs, a).Some?
    ensures detail !in Apply(trs, a).value
  {
    if trs != [] {
      StaysAway(trs[1..], Transform(trs[0], a).value, detail);
    }
  }

  /** One that the code calls private does not get past a hiding list with its details. */
  lemma {:induction false} PrivateLosesDetails(trs: seq<Transformer>, a: Props, detail: string)
    requires Private(a) && detail in {"DESCRIPTION", "LOCATION", "ATTENDEE"} && Apply(trs, a).Some? && exists tr <- trs :: Hides(tr)
    ensures detail !in Apply(trs, a).value
  {
    var next := Transform(trs[0], a).value;
    if Hides(trs[0]) {
      StaysAway(trs[1..], next, detail);
    } else {
      TransformKeepsClass(trs[0], a);
      assert exists tr <- trs[1..] :: Hides(tr) by {
        var tr :| tr in trs && Hides(tr);
        assert tr in trs[1..];
      }
      PrivateLosesDetails(trs[1..], next, detail);
    }
  }

  /** Which components that are private by the RFC get through a hiding list with their details: exactly those whose CLASS is spelled
      other than in the two ways the code knows, as far as their categories are allowed. */
  lemma {:induction false} PrivateByRfcShows(trs: seq<Transformer>, a: Props, detail: string)
    requires PrivateByRfc(a) && detail in {"DESCRIPTION", "LOCATION", "ATTENDEE"} && detail in a && exists tr <- trs :: Hides(tr)
    ensures Apply(trs, a).Some? && Get(Apply(trs, a).value, detail) == Get(a, detail) <==>
            && TextOf(a, "CLASS") !in {Some("PRIVATE"), Some("CONFIDENTIAL")}
            && AllowedByAll(trs, TextOrEmpty(a, "CATEGORIES"))
  {
    if Private(a) {
      if Apply(trs, a).Some? {
        PrivateLosesDetails(trs, a, detail);
      }
    } else {
      NotPrivateShows(trs, a, detail);
    }
  }

  /** Such spellings exist: a lower-case one, and a value of the user's own. */
  lemma MisspeltPasses(a: Props, spelling: string)
    requires spelling in {"private", "Confidential", "X-SECRET"}
    ensures var b := SetText(a, "CLASS", spelling); PrivateByRfc(b) && Apply([FilterPrivate, MaskPrivate("")], b) == Some(b)
  {
    var b := SetText(a, "CLASS", spelling);
    assert [FilterPrivate, MaskPrivate("")][1..] == [MaskPrivate("")] && [MaskPrivate("")][1..] == [];
    assert |ToLower(spelling)| == |spelling| != |"public"|;
    assert spelling[0] == 'p' || spelling[1] == 'o' || spelling[0] == 'X';
    assert !Private(b);
    assert Apply([], b) == Some(b);
    assert Apply([MaskPrivate("")], b) == Some(b);
  }

  // ---------------------------------------------------------------- UID prefixes

  /** The prefix of the last `prefix-uid` of a list. */
  function LastPrefix(trs: seq<Transformer>): Option<string> {
    if trs == [] then None
    else if trs[|trs| - 1].PrefixUid? then Some(trs[|trs| - 1].prefix)
    else LastPrefix(trs[..|trs| - 1])
  }

  lemma {:induction false} ApplyLast(trs: seq<Transformer>, a: Props)
    requires trs != []
    ensures var front := Apply(trs[..|trs| - 1], a);
            Apply(trs, a) == if front.None? then None else Transform(trs[|trs| - 1], front.value)
  {
    if |trs| > 1 {
      var next := Transform(trs[0], a);
      if next.Some? {
        ApplyLast(trs[1..], next.value);
        assert trs[1..][..|trs[1..]| - 1] == trs[..|trs| - 1][1..];
      }
    } else {
      assert trs[1..] == [];
    }
  }

  lemma TransformUid(tr: Transformer, a: Props)
    requires Transform(tr, a).Some?
    ensures var u, u' := TextOrEmpty(a, "UID"), TextOrEmpty(Transform(tr, a).value, "UID");
            u' == if tr.PrefixUid? && u != "" && !Carries(u, tr.prefix) then tr.prefix + "-" + u else u
  {
  }

  /** Whatever passes has the last prefix of the list on its UID, unless it has no UID at all. */
  lemma {:induction false} LastPrefixShows(trs: seq<Transformer>, a: Props)
    requires Apply(trs, a).Some? && LastPrefix(trs).Some?
    ensures var u := TextOrEmpty(Apply(trs, a).value, "UID"); u == "" || Carries(u, LastPrefix(trs).value)
    decreases |trs|
  {
    ApplyLast(trs, a);
    var front, last := trs[..|trs| - 1], trs[|trs| - 1];
    TransformUid(last, Apply(front, a).value);
    if !last.PrefixUid? {
      LastPrefixShows(front, a);
    }
  }

  /** Exactly when a source's prefix, a word without dash, is found on the UIDs its pipeline yields:
      when the last prefix of the list begins with it. */
  lemma PrefixCarried(trs: seq<Transformer>, a: Props, prefix: string)
    requires Apply(trs, a).Some? && LastPrefix(trs).Some? && '-' !in prefix
    requires TextOrEmpty(Apply(trs, a).value, "UID") != ""
    ensures Carries(TextOrEmpty(Apply(trs, a).value, "UID"), prefix) <==> prefix + "-" <= LastPrefix(trs).value + "-"
  {
    LastPrefixShows(trs, a);
    var u, last := TextOrEmpty(Apply(trs, a).value, "UID"), LastPrefix(trs).value;
    var long, short := last + "-", prefix + "-";
    assert long == u[..|long|];
    if short <= u {
      assert short == u[..|short|];
      assert u[|last|] == '-';
      assert forall i :: 0 <= i < |prefix| ==> u[i] == prefix[i];
      assert |short| <= |long|;
      assert long[..|short|] == u[..|short|];
    }
  }
}
