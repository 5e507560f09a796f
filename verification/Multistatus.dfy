/** Reading a WebDAV multistatus document (RFC 4918, sections 14.16, 14.24 and 14.28)
    from its token stream, which may break off anywhere. */
module Multistatus {
  import opened Text
  import opened Records

  datatype Token = Start(name: string) | End(name: string) | Chars(text: string) | Other

  // ---------------------------------------------------------------- the scan, token by token

  /** The last address and the last status read, each as trimmed text. */
  datatype Fields = Fields(href: string, status: string)

  const NO_FIELDS := Fields("", "")

  predicate IsField(name: string) {
    name == "href" || name == "status"
  }

  function With(f: Fields, name: string, text: string): Fields {
    if name == "href" then f.(href := TrimSpace(text)) else f.(status := TrimSpace(text))
  }

  datatype Mode = Outside | InResponse | InField(name: string, text: string)
  datatype Scan = Scan(mode: Mode, fields: Fields, out: seq<string>)

  const START := Scan(Outside, NO_FIELDS, [])

  /** A response is wanted if it has an address and, where only existing resources count, no or a 2xx status. */
  predicate Wanted(href: string, status: string, onlyExisting: bool) {
    href != "" && (!onlyExisting || status == "" || "HTTP/1.1 2" <= status)
  }

  function Emit(f: Fields, onlyExisting: bool): seq<string> {
    if Wanted(f.href, f.status, onlyExisting) then [f.href] else []
  }

  function Next(s: Scan, t: Token, onlyExisting: bool): Scan {
    match s.mode
    case Outside => if t == Start("response") then s.(mode := InResponse) else s
    case InResponse =>
      if t.Start? && IsField(t.name) then s.(mode := InField(t.name, ""))
      else if t == End("response") then Scan(Outside, NO_FIELDS, s.out + Emit(s.fields, onlyExisting))
      else s
    case InField(name, text) =>
      if t.Chars? then s.(mode := InField(name, text + t.text))
      else if t == End(name) then s.(mode := InResponse, fields := With(s.fields, name, text))
      else s
  }

  function Scanned(s: Scan, ts: seq<Token>, onlyExisting: bool): Scan
    decreases |ts|
  {
    if ts == [] then s else Scanned(Next(s, ts[0], onlyExisting), ts[1..], onlyExisting)
  }

  /** The addresses read from a token stream. */
  function HrefsRead(ts: seq<Token>, onlyExisting: bool): seq<string> {
    Scanned(START, ts, onlyExisting).out
  }

  lemma {:induction false} ScannedConcat(s: Scan, a: seq<Token>, b: seq<Token>, onlyExisting: bool)
    ensures Scanned(s, a + b, onlyExisting) == Scanned(Scanned(s, a, onlyExisting), b, onlyExisting)
    decreases |a|
  {
    if a == [] {
      assert a + b == b;
    } else {
      assert (a + b)[1..] == a[1..] + b;
      ScannedConcat(Next(s, a[0], onlyExisting), a[1..], b, onlyExisting);
    }
  }

  lemma ScannedStep(s: Scan, ts: seq<Token>, i: nat, onlyExisting: bool)
    requires i < |ts|
    ensures Scanned(s, ts[i..], onlyExisting) == Scanned(Next(s, ts[i], onlyExisting), ts[i + 1..], onlyExisting)
  {
    assert ts[i..][0] == ts[i] && ts[i..][1..] == ts[i + 1..];
  }

  // ---------------------------------------------------------------- the loops

  /** The innermost loops: text up to the closing tag, or up to where the stream breaks off. */
  method CollectHref(ts: seq<Token>, start: nat, onlyExisting: bool, ghost s: Scan) returns (text: string, pos: nat)
    requires start <= |ts| && s.mode == InField("href", "")
    ensures start <= pos <= |ts|
    ensures Scanned(s, ts[start..], onlyExisting) == Scanned(s.(mode := InResponse, fields := With(s.fields, "href", text)), ts[pos..], onlyExisting)
            || (pos == |ts| && Scanned(s, ts[start..], onlyExisting).out == s.out)
  {
    text, pos := "", start;
    while pos < |ts|
      invariant start <= pos <= |ts|
      invariant Scanned(s, ts[start..], onlyExisting) == Scanned(s.(mode := InField("href", text)), ts[pos..], onlyExisting)
    {
      ScannedStep(s.(mode := InField("href", text)), ts, pos, onlyExisting);
      var t := ts[pos];
      pos := pos + 1;
      if t.Chars? { text := text + t.text; }
      if t == End("href") { return; }
    }
  }

  method CollectStatus(ts: seq<Token>, start: nat, onlyExisting: bool, ghost s: Scan) returns (text: string, pos: nat)
    requires start <= |ts| && s.mode == InField("status", "")
    ensures start <= pos <= |ts|
    ensures Scanned(s, ts[start..], onlyExisting) == Scanned(s.(mode := InResponse, fields := With(s.fields, "status", text)), ts[pos..], onlyExisting)
            || (pos == |ts| && Scanned(s, ts[start..], onlyExisting).out == s.out)
  {
    text, pos := "", start;
    while pos < |ts|
      invariant start <= pos <= |ts|
      invariant Scanned(s, ts[start..], onlyExisting) == Scanned(s.(mode := InField("status", text)), ts[pos..], onlyExisting)
    {
      ScannedStep(s.(mode := InField("status", text)), ts, pos, onlyExisting);
      var t := ts[pos];
      pos := pos + 1;
      if t.Chars? { text := text + t.text; }
      if t == End("status") { return; }
    }
  }

  /** The loop over one response. If the stream breaks off in it, the response yields nothing. */
  method ReadResponse(ts: seq<Token>, start: nat, onlyExisting: bool, ghost out: seq<string>) returns (found: seq<string>, pos: nat)
    requires start <= |ts|
    ensures start <= pos <= |ts|
    ensures var s := Scan(InResponse, NO_FIELDS, out);
            Scanned(s, ts[start..], onlyExisting) == Scanned(Scan(Outside, NO_FIELDS, out + found), ts[pos..], onlyExisting)
            || (pos == |ts| && found == [] && Scanned(s, ts[start..], onlyExisting).out == out)
  {
    var href, status := "", "";
    pos := start;
    ghost var s := Scan(InResponse, NO_FIELDS, out);
    ghost var lost := false;
    while pos < |ts|
      invariant start <= pos <= |ts|
      invariant lost ==> pos == |ts| && Scanned(s, ts[start..], onlyExisting).out == out
      invariant !lost ==> Scanned(s, ts[start..], onlyExisting) == Scanned(Scan(InResponse, Fields(href, status), out), ts[pos..], onlyExisting)
      decreases |ts| - pos
    {
      ghost var cur := Scan(InResponse, Fields(href, status), out);
      ScannedStep(cur, ts, pos, onlyExisting);
      var t := ts[pos];
      pos := pos + 1;
      if t == Start("href") {
        var text;
        text, pos := CollectHref(ts, pos, onlyExisting, cur.(mode := InField("href", "")));
        href := TrimSpace(text);
        lost := Scanned(s, ts[start..], onlyExisting) != Scanned(Scan(InResponse, Fields(href, status), out), ts[pos..], onlyExisting);
      } else if t == Start("status") {
        var text;
        text, pos := CollectStatus(ts, pos, onlyExisting, cur.(mode := InField("status", "")));
        status := TrimSpace(text);
        lost := Scanned(s, ts[start..], onlyExisting) != Scanned(Scan(InResponse, Fields(href, status), out), ts[pos..], onlyExisting);
      } else if t == End("response") {
        found := Emit(Fields(href, status), onlyExisting);
        return;
      }
    }
    found := [];
  }

  /** `xmlHrefs`: the outermost loop. */
  method XmlHrefs(ts: seq<Token>, onlyExisting: bool) returns (hrefs: seq<string>)
    ensures hrefs == HrefsRead(ts, onlyExisting)
  {
    hrefs := [];
    var pos := 0;
    assert ts[0..] == ts;
    while pos < |ts|
      invariant pos <= |ts|
      invariant Scanned(START, ts, onlyExisting).out == Scanned(Scan(Outside, NO_FIELDS, hrefs), ts[pos..], onlyExisting).out
    {
      ScannedStep(Scan(Outside, NO_FIELDS, hrefs), ts, pos, onlyExisting);
      var t := ts[pos];
      pos := pos + 1;
      if t == Start("response") {
        var found;
        found, pos := ReadResponse(ts, pos, onlyExisting, hrefs);
        hrefs := hrefs + found;
      }
    }
  }

  // ---------------------------------------------------------------- documents

  datatype Xml = Elem(name: string, children: seq<Xml>) | Text(text: string) | Misc

  function Print(x: Xml): seq<Token>
    decreases x, 0
  {
    match x
    case Elem(name, children) => [Start(name)] + PrintAll(children) + [End(name)]
    case Text(text) => [Chars(text)]
    case Misc => [Other]
  }

  function PrintAll(xs: seq<Xml>): seq<Token>
    decreases xs
  {
    if xs == [] then [] else Print(xs[0]) + PrintAll(xs[1..])
  }

  function NodeText(x: Xml): string
    decreases x, 0
  {
    match x
    case Elem(_, children) => TextIn(children)
    case Text(text) => text
    case Misc => ""
  }

  /** All text below, in order. */
  function TextIn(xs: seq<Xml>): string
    decreases xs
  {
    if xs == [] then "" else NodeText(xs[0]) + TextIn(xs[1..])
  }

  predicate Without(xs: seq<Xml>, name: string)
    decreases xs
  {
    xs == [] ||
    ((match xs[0]
      case Elem(n, children) => n != name && Without(children, name)
      case Text(_) => true
      case Misc => true) && Without(xs[1..], name))
  }

  function Size(xs: seq<Xml>): (n: nat)
    ensures xs != [] ==> n == SizeOf(xs[0]) + Size(xs[1..])
    decreases xs
  {
    if xs == [] then 0 else SizeOf(xs[0]) + Size(xs[1..])
  }

  function SizeOf(x: Xml): (n: nat)
    ensures n > 0 && (x.Elem? ==> n > Size(x.children))
    decreases x, 0
  {
    if x.Elem? then 1 + Size(x.children) else 1
  }

  lemma {:induction false} SizeConcat(a: seq<Xml>, b: seq<Xml>)
    ensures Size(a + b) == Size(a) + Size(b)
  {
    if a == [] {
      assert a + b == b;
    } else {
      assert (a + b)[1..] == a[1..] + b;
      SizeConcat(a[1..], b);
    }
  }

  /** Reading on to the closing tag of a name: the text up to the first one, whether there is one, and what follows it, taken out
      of the elements that it is in. */
  datatype Cut = Cut(text: string, closed: bool, rest: seq<Xml>)

  function CutNode(x: Xml, name: string): (c: Cut)
    ensures Size(c.rest) < SizeOf(x)
    decreases x, 0
  {
    match x
    case Elem(n, children) =>
      var inner := CutAt(children, name);
      if !inner.closed && n == name then inner.(closed := true) else inner
    case Text(text) => Cut(text, false, [])
    case Misc => Cut("", false, [])
  }

  function CutAt(xs: seq<Xml>, name: string): (c: Cut)
    ensures Size(c.rest) <= Size(xs) && (!c.closed ==> c.rest == [])
    decreases xs
  {
    if xs == [] then Cut("", false, [])
    else
      var here := CutNode(xs[0], name);
      if here.closed then
        SizeConcat(here.rest, xs[1..]);
        here.(rest := here.rest + xs[1..])
      else
        var after := CutAt(xs[1..], name);
        after.(text := here.text + after.text)
  }

  /** Where no element of the name is inside, all text counts. */
  lemma {:induction false} WholeText(xs: seq<Xml>, name: string)
    requires Without(xs, name)
    ensures CutAt(xs, name) == Cut(TextIn(xs), false, [])
    decreases xs
  {
    if xs != [] {
      if xs[0].Elem? {
        WholeText(xs[0].children, name);
      }
      WholeText(xs[1..], name);
    }
  }

  /** The last address and the last status below a response. A field ends at the first closing tag of its name. */
  function FieldsAfter(f: Fields, xs: seq<Xml>): Fields
    decreases Size(xs)
  {
    if xs == [] then f
    else if !xs[0].Elem? then FieldsAfter(f, xs[1..])
    else if IsField(xs[0].name) then
      var cut := CutAt(xs[0].children, xs[0].name);
      SizeConcat(cut.rest, xs[1..]);
      FieldsAfter(With(f, xs[0].name, cut.text), cut.rest + xs[1..])
    else FieldsAfter(FieldsAfter(f, xs[0].children), xs[1..])
  }

  /** No response is inside another. */
  predicate Document(xs: seq<Xml>)
    decreases xs
  {
    xs == [] ||
    ((match xs[0]
      case Elem(name, children) => if name == "response" then Without(children, "response") else Document(children)
      case Text(_) => true
      case Misc => true) && Document(xs[1..]))
  }

  function HrefsIn(x: Xml, onlyExisting: bool): seq<string>
    decreases x, 0
  {
    match x
    case Elem(name, children) =>
      if name == "response" then Emit(FieldsAfter(NO_FIELDS, children), onlyExisting)
      else HrefsOf(children, onlyExisting)
    case Text(_) => []
    case Misc => []
  }

  /** The addresses of the wanted responses, in document order. */
  function HrefsOf(xs: seq<Xml>, onlyExisting: bool): seq<string>
    decreases xs
  {
    if xs == [] then [] else HrefsIn(xs[0], onlyExisting) + HrefsOf(xs[1..], onlyExisting)
  }

  /** An element is scanned as its start tag, its content and its end tag. */
  lemma ScannedElem(s: Scan, name: string, body: seq<Token>, onlyExisting: bool)
    ensures Scanned(s, [Start(name)] + body + [End(name)], onlyExisting) ==
            Next(Scanned(Next(s, Start(name), onlyExisting), body, onlyExisting), End(name), onlyExisting)
  {
    ScannedConcat(s, [Start(name)] + body, [End(name)], onlyExisting);
    ScannedConcat(s, [Start(name)], body, onlyExisting);
    assert [Start(name)][1..] == [] && [End(name)][1..] == [];
  }

  lemma {:induction false} PrintConcat(a: seq<Xml>, b: seq<Xml>)
    ensures PrintAll(a + b) == PrintAll(a) + PrintAll(b)
  {
    if a == [] {
      assert a + b == b;
    } else {
      assert (a + b)[1..] == a[1..] + b;
      PrintConcat(a[1..], b);
    }
  }

  lemma {:induction false} WithoutConcat(a: seq<Xml>, b: seq<Xml>, name: string)
    requires Without(a, name) && Without(b, name)
    ensures Without(a + b, name)
  {
    if a == [] {
      assert a + b == b;
    } else {
      assert (a + b)[1..] == a[1..] + b;
      WithoutConcat(a[1..], b, name);
    }
  }

  lemma {:induction false} CutStaysWithout(xs: seq<Xml>, name: string, other: string)
    requires Without(xs, other)
    ensures Without(CutAt(xs, name).rest, other)
    decreases xs
  {
    if xs != [] {
      if xs[0].Elem? {
        CutStaysWithout(xs[0].children, name, other);
      }
      CutStaysWithout(xs[1..], name, other);
      if CutNode(xs[0], name).closed {
        WithoutConcat(CutNode(xs[0], name).rest, xs[1..], other);
      }
    }
  }

  /** Where reading a field leads: still inside it, or past its first closing tag and on through what follows. */
  function Collected(f: Fields, out: seq<string>, name: string, text: string, c: Cut, onlyExisting: bool): Scan {
    if c.closed then Scanned(Scan(InResponse, With(f, name, text + c.text), out), PrintAll(c.rest), onlyExisting)
    else Scan(InField(name, text + c.text), f, out)
  }

  lemma JoinsText(f: Fields, out: seq<string>, name: string, text: string, here: Cut, after: Cut, onlyExisting: bool)
    ensures Collected(f, out, name, text + here.text, after, onlyExisting) ==
            Collected(f, out, name, text, after.(text := here.text + after.text), onlyExisting)
  {
    assert text + (here.text + after.text) == (text + here.text) + after.text;
  }

  lemma {:induction false} CollectsNode(f: Fields, out: seq<string>, name: string, text: string, x: Xml, onlyExisting: bool)
    requires IsField(name) && Without([x], "response")
    ensures Scanned(Scan(InField(name, text), f, out), Print(x), onlyExisting) == Collected(f, out, name, text, CutNode(x, name), onlyExisting)
    decreases SizeOf(x), 0
  {
    match x {
      case Elem(n, children) =>
        ScannedElem(Scan(InField(name, text), f, out), n, PrintAll(children), onlyExisting);
        Collects(f, out, name, text, children, onlyExisting);
        var inner := CutAt(children, name);
        if inner.closed {
          CutStaysWithout(children, name, "response");
          ScansBody(With(f, name, text + inner.text), out, inner.rest, onlyExisting);
        }
      case Text(t) => assert [Chars(t)][1..] == [];
      case Misc =>
        assert [Other][1..] == [];
        assert text + "" == text;
    }
  }

  lemma {:induction false} Collects(f: Fields, out: seq<string>, name: string, text: string, xs: seq<Xml>, onlyExisting: bool)
    requires IsField(name) && Without(xs, "response")
    ensures Scanned(Scan(InField(name, text), f, out), PrintAll(xs), onlyExisting) == Collected(f, out, name, text, CutAt(xs, name), onlyExisting)
    decreases Size(xs), 1
  {
    if xs == [] {
      assert text + "" == text;
    } else {
      var here := CutNode(xs[0], name);
      ScannedConcat(Scan(InField(name, text), f, out), Print(xs[0]), PrintAll(xs[1..]), onlyExisting);
      CollectsNode(f, out, name, text, xs[0], onlyExisting);
      if here.closed {
        var s := Scan(InResponse, With(f, name, text + here.text), out);
        ScannedConcat(s, PrintAll(here.rest), PrintAll(xs[1..]), onlyExisting);
        PrintConcat(here.rest, xs[1..]);
      } else {
        Collects(f, out, name, text + here.text, xs[1..], onlyExisting);
        JoinsText(f, out, name, text, here, CutAt(xs[1..], name), onlyExisting);
      }
    }
  }

  /** A field and what follows it are scanned as if whatever is behind its first closing tag stood outside. */
  lemma {:induction false} ScansField(f: Fields, out: seq<string>, x: Xml, more: seq<Xml>, onlyExisting: bool)
    requires x.Elem? && IsField(x.name) && Without([x], "response") && Without(more, "response")
    ensures var cut := CutAt(x.children, x.name);
            Scanned(Scan(InResponse, f, out), Print(x) + PrintAll(more), onlyExisting) ==
            Scanned(Scan(InResponse, With(f, x.name, cut.text), out), PrintAll(cut.rest + more), onlyExisting)
    decreases SizeOf(x), 1
  {
    var name, cut := x.name, CutAt(x.children, x.name);
    var s, s' := Scan(InResponse, f, out), Scan(InResponse, With(f, name, cut.text), out);
    ScannedConcat(s, Print(x), PrintAll(more), onlyExisting);
    ScannedElem(s, name, PrintAll(x.children), onlyExisting);
    Collects(f, out, name, "", x.children, onlyExisting);
    assert "" + cut.text == cut.text;
    if cut.closed {
      CutStaysWithout(x.children, name, "response");
      ScansBody(With(f, name, cut.text), out, cut.rest, onlyExisting);
      ScannedConcat(s', PrintAll(cut.rest), PrintAll(more), onlyExisting);
      PrintConcat(cut.rest, more);
    } else {
      assert cut.rest + more == more;
    }
  }

  lemma {:induction false} ScansBody(f: Fields, out: seq<string>, xs: seq<Xml>, onlyExisting: bool)
    requires Without(xs, "response")
    ensures Scanned(Scan(InResponse, f, out), PrintAll(xs), onlyExisting) == Scan(InResponse, FieldsAfter(f, xs), out)
    decreases Size(xs), 2
  {
    if xs != [] {
      var s, x := Scan(InResponse, f, out), xs[0];
      if x.Elem? && IsField(x.name) {
        var cut := CutAt(x.children, x.name);
        ScansField(f, out, x, xs[1..], onlyExisting);
        CutStaysWithout(x.children, x.name, "response");
        WithoutConcat(cut.rest, xs[1..], "response");
        SizeConcat(cut.rest, xs[1..]);
        ScansBody(With(f, x.name, cut.text), out, cut.rest + xs[1..], onlyExisting);
      } else {
        ScannedConcat(s, Print(x), PrintAll(xs[1..]), onlyExisting);
        match x {
          case Elem(name, children) =>
            ScannedElem(s, name, PrintAll(children), onlyExisting);
            ScansBody(f, out, children, onlyExisting);
            ScansBody(FieldsAfter(f, children), out, xs[1..], onlyExisting);
          case Text(t) =>
            assert [Chars(t)][1..] == [];
            ScansBody(f, out, xs[1..], onlyExisting);
          case Misc =>
            assert [Other][1..] == [];
            ScansBody(f, out, xs[1..], onlyExisting);
        }
      }
    }
  }

  lemma {:induction false} ParsesNode(out: seq<string>, x: Xml, onlyExisting: bool)
    requires Document([x])
    ensures Scanned(Scan(Outside, NO_FIELDS, out), Print(x), onlyExisting) == Scan(Outside, NO_FIELDS, out + HrefsIn(x, onlyExisting))
    decreases x, 0
  {
    var s := Scan(Outside, NO_FIELDS, out);
    assert out + [] == out;
    match x {
      case Elem(name, children) =>
        ScannedElem(s, name, PrintAll(children), onlyExisting);
        if name == "response" {
          ScansBody(NO_FIELDS, out, children, onlyExisting);
        } else {
          ParsesPrinted(out, children, onlyExisting);
        }
      case Text(t) => assert [Chars(t)][1..] == [];
      case Misc => assert [Other][1..] == [];
    }
  }

  /** The parser against the printer: on any document without nested responses it returns, in order, the last trimmed
      non-empty address of every response that passes the test of its last status. */
  lemma {:induction false} ParsesPrinted(out: seq<string>, xs: seq<Xml>, onlyExisting: bool)
    requires Document(xs)
    ensures Scanned(Scan(Outside, NO_FIELDS, out), PrintAll(xs), onlyExisting) == Scan(Outside, NO_FIELDS, out + HrefsOf(xs, onlyExisting))
    decreases xs
  {
    if xs == [] {
      assert out + [] == out;
    } else {
      var head, rest := HrefsIn(xs[0], onlyExisting), HrefsOf(xs[1..], onlyExisting);
      ScannedConcat(Scan(Outside, NO_FIELDS, out), Print(xs[0]), PrintAll(xs[1..]), onlyExisting);
      ParsesNode(out, xs[0], onlyExisting);
      ParsesPrinted(out + head, xs[1..], onlyExisting);
      assert out + (head + rest) == (out + head) + rest;
    }
  }

  // ---------------------------------------------------------------- what a response contributes

  /** Addresses and statuses hold text and nothing else. */
  predicate PlainFields(xs: seq<Xml>)
    decreases xs
  {
    xs == [] ||
    ((match xs[0]
      case Elem(n, children) =>
        if n == "href" || n == "status" then forall c <- children :: !c.Elem?
        else n != "response" && PlainFields(children)
      case Text(_) => true
      case Misc => true) && PlainFields(xs[1..]))
  }

  /** The text of the last element of a name, however deep. */
  function LastNamed(xs: seq<Xml>, name: string): Option<string>
    decreases xs
  {
    if xs == [] then None
    else
      var later := LastNamed(xs[1..], name);
      if later.Some? || !xs[0].Elem? then later
      else if xs[0].name == name then Some(TextIn(xs[0].children))
      else LastNamed(xs[0].children, name)
  }

  lemma {:induction false} OnlyText(xs: seq<Xml>, name: string)
    requires forall c <- xs :: !c.Elem?
    ensures Without(xs, name) && LastNamed(xs, name) == None
    decreases xs
  {
    if xs != [] {
      assert xs[0] in xs;
      OnlyText(xs[1..], name);
    }
  }

  lemma {:induction false} PlainHasNoResponse(xs: seq<Xml>)
    requires PlainFields(xs)
    ensures Without(xs, "response")
    decreases xs
  {
    if xs != [] {
      if xs[0].Elem? {
        if xs[0].name == "href" || xs[0].name == "status" {
          OnlyText(xs[0].children, "response");
        } else {
          PlainHasNoResponse(xs[0].children);
        }
      }
      PlainHasNoResponse(xs[1..]);
    }
  }

  lemma {:induction false} FieldsAreLast(f: Fields, xs: seq<Xml>)
    requires PlainFields(xs)
    ensures var h, t := LastNamed(xs, "href"), LastNamed(xs, "status");
            FieldsAfter(f, xs) == Fields(if h.Some? then TrimSpace(h.value) else f.href, if t.Some? then TrimSpace(t.value) else f.status)
    decreases xs
  {
    if xs != [] {
      var x := xs[0];
      if x.Elem? {
        if IsField(x.name) {
          OnlyText(x.children, x.name);
          OnlyText(x.children, if x.name == "href" then "status" else "href");
          WholeText(x.children, x.name);
          assert [] + xs[1..] == xs[1..];
          FieldsAreLast(With(f, x.name, TextIn(x.children)), xs[1..]);
        } else {
          FieldsAreLast(f, x.children);
          FieldsAreLast(FieldsAfter(f, x.children), xs[1..]);
        }
      } else {
        FieldsAreLast(f, xs[1..]);
      }
    }
  }

  /** A document with these responses. */
  function Listing(responses: seq<seq<Xml>>): seq<Xml> {
    [Elem("multistatus", seq(|responses|, i requires 0 <= i < |responses| => Elem("response", responses[i])))]
  }

  /** What a response adds to the addresses read, told by its own text: its last address, if that is not blank; and where only existing
      resources count, only with a blank status, or none, or one that begins with "HTTP/1.1 2". */
  function Contribution(body: seq<Xml>, onlyExisting: bool): seq<string> {
    var h, t := LastNamed(body, "href"), LastNamed(body, "status");
    var href, status := if h.Some? then TrimSpace(h.value) else "", if t.Some? then TrimSpace(t.value) else "";
    if href == "" then []
    else if onlyExisting && status != "" && !("HTTP/1.1 2" <= status) then []
    else [href]
  }

  function Contributions(responses: seq<seq<Xml>>, onlyExisting: bool): seq<string> {
    if responses == [] then [] else Contribution(responses[0], onlyExisting) + Contributions(responses[1..], onlyExisting)
  }

  lemma {:induction false} HrefsOfResponses(responses: seq<seq<Xml>>, xs: seq<Xml>, onlyExisting: bool)
    requires |xs| == |responses| && forall i :: 0 <= i < |xs| ==> xs[i] == Elem("response", responses[i]) && PlainFields(responses[i])
    ensures Document(xs) && HrefsOf(xs, onlyExisting) == Contributions(responses, onlyExisting)
    decreases |xs|
  {
    if xs != [] {
      PlainHasNoResponse(responses[0]);
      FieldsAreLast(NO_FIELDS, responses[0]);
      HrefsOfResponses(responses[1..], xs[1..], onlyExisting);
    }
  }

  /** Read from a printed listing: exactly what its responses contribute, in order. */
  lemma {:induction false} ReadsContributions(responses: seq<seq<Xml>>, onlyExisting: bool)
    requires forall body <- responses :: PlainFields(body)
    ensures HrefsRead(PrintAll(Listing(responses)), onlyExisting) == Contributions(responses, onlyExisting)
  {
    var xs := Listing(responses)[0].children;
    HrefsOfResponses(responses, xs, onlyExisting);
    assert Listing(responses)[1..] == [];
    ParsesPrinted([], Listing(responses), onlyExisting);
    assert HrefsOf(Listing(responses), onlyExisting) == HrefsOf(xs, onlyExisting) + [];
  }

  /** In terms of status codes. */
  lemma {:induction false} StatusDecides(responses: seq<seq<Xml>>, body: seq<Xml>, href: string, onlyExisting: bool)
    requires PlainFields(body) && forall b <- responses :: PlainFields(b)
    requires href == TrimSpace(href) && LastNamed(body, "href") == if href == "" then None else Some(href)
    ensures var read := HrefsRead(PrintAll(Listing(responses)), onlyExisting);
            var more := HrefsRead(PrintAll(Listing(responses + [body])), onlyExisting);
            var status := LastNamed(body, "status");
            && (href == "" ==> more == read)
            && (href != "" && (!onlyExisting || status.None?) ==> more == read + [href])
            && (forall code: string, reason: string :: |code| == 3 && IsStatus(status, code, reason) && href != "" && onlyExisting ==>
                  more == if code[0] == '2' then read + [href] else read)
  {
    forall b <- responses + [body] ensures PlainFields(b) {}
    ReadsContributions(responses, onlyExisting);
    ReadsContributions(responses + [body], onlyExisting);
    ContributionsSnoc(responses, body, onlyExisting);
    forall code: string, reason: string | |code| == 3 && IsStatus(LastNamed(body, "status"), code, reason)
      ensures "HTTP/1.1 2" <= LastNamed(body, "status").value <==> code[0] == '2'
    {
      assert LastNamed(body, "status").value[9] == code[0];
    }
  }

  /** A status line of HTTP/1.1, without blanks around it. */
  predicate IsStatus(status: Option<string>, code: string, reason: string) {
    status == Some("HTTP/1.1 " + code + reason) && TrimSpace(status.value) == status.value
  }

  lemma {:induction false} ContributionsSnoc(responses: seq<seq<Xml>>, body: seq<Xml>, onlyExisting: bool)
    ensures Contributions(responses + [body], onlyExisting) == Contributions(responses, onlyExisting) + Contribution(body, onlyExisting)
  {
    if responses == [] {
      assert responses + [body] == [body] && [body][1..] == [];
    } else {
      assert (responses + [body])[1..] == responses[1..] + [body];
      ContributionsSnoc(responses[1..], body, onlyExisting);
      var first, rest, last := Contribution(responses[0], onlyExisting), Contributions(responses[1..], onlyExisting), Contribution(body, onlyExisting);
      assert (responses + [body])[0] == responses[0];
      assert first + (rest + last) == (first + rest) + last;
    }
  }

  // ---------------------------------------------------------------- streams that break off

  /** The addresses of the wanted responses that are closed within the first `n` tokens of the printed document. */
  function ClosedWithin(xs: seq<Xml>, n: nat, onlyExisting: bool): seq<string>
    decreases xs
  {
    if xs == [] then []
    else if n >= |Print(xs[0])| then HrefsIn(xs[0], onlyExisting) + ClosedWithin(xs[1..], n - |Print(xs[0])|, onlyExisting)
    else if xs[0].Elem? && xs[0].name != "response" && n > 0 then ClosedWithin(xs[0].children, n - 1, onlyExisting)
    else []
  }

  lemma {:induction false} NeverCloses(s: Scan, ts: seq<Token>, onlyExisting: bool)
    requires s.mode != Outside && End("response") !in ts
    ensures Scanned(s, ts, onlyExisting).out == s.out
    decreases |ts|
  {
    if ts != [] {
      assert ts[0] in ts;
      NeverCloses(Next(s, ts[0], onlyExisting), ts[1..], onlyExisting);
    }
  }

  lemma {:induction false} BodyHasNoEnd(xs: seq<Xml>)
    requires Without(xs, "response")
    ensures End("response") !in PrintAll(xs)
    decreases xs
  {
    if xs != [] {
      if xs[0].Elem? {
        BodyHasNoEnd(xs[0].children);
      }
      BodyHasNoEnd(xs[1..]);
    }
  }

  /** Wherever the stream breaks off, the parser returns the addresses of exactly the wanted responses closed before. */
  lemma {:induction false} ParsesTruncated(out: seq<string>, xs: seq<Xml>, n: nat, onlyExisting: bool)
    requires Document(xs) && n <= |PrintAll(xs)|
    ensures Scanned(Scan(Outside, NO_FIELDS, out), PrintAll(xs)[..n], onlyExisting).out == out + ClosedWithin(xs, n, onlyExisting)
    decreases xs
  {
    if xs == [] {
      assert out + [] == out;
    } else {
      var s, x, first, rest := Scan(Outside, NO_FIELDS, out), xs[0], Print(xs[0]), PrintAll(xs[1..]);
      if n >= |first| {
        var m := n - |first|;
        assert (first + rest)[..n] == first + rest[..m];
        ScannedConcat(s, first, rest[..m], onlyExisting);
        ParsesNode(out, x, onlyExisting);
        var here := HrefsIn(x, onlyExisting);
        ParsesTruncated(out + here, xs[1..], m, onlyExisting);
        assert out + (here + ClosedWithin(xs[1..], m, onlyExisting)) == (out + here) + ClosedWithin(xs[1..], m, onlyExisting);
      } else {
        assert (first + rest)[..n] == first[..n];
        TruncatedElement(out, x, n, onlyExisting);
        if x.Elem? && x.name != "response" && n > 0 {
          ParsesTruncated(out, x.children, n - 1, onlyExisting);
        }
        assert out + [] == out;
      }
    }
  }

  lemma TruncatedElement(out: seq<string>, x: Xml, n: nat, onlyExisting: bool)
    requires Document([x]) && n < |Print(x)|
    ensures var r := Scanned(Scan(Outside, NO_FIELDS, out), Print(x)[..n], onlyExisting).out;
            if x.Elem? && x.name != "response" && n > 0
            then n - 1 <= |PrintAll(x.children)| && r == Scanned(Scan(Outside, NO_FIELDS, out), PrintAll(x.children)[..n - 1], onlyExisting).out
            else r == out
  {
    assert Print(x)[..0] == [];
    if n > 0 && x.Elem? {
      var s, body := Scan(Outside, NO_FIELDS, out), PrintAll(x.children);
      assert Print(x)[..n] == [Start(x.name)] + body[..n - 1];
      assert ([Start(x.name)] + body[..n - 1])[1..] == body[..n - 1];
      if x.name == "response" {
        BodyHasNoEnd(x.children);
        NeverCloses(s.(mode := InResponse), body[..n - 1], onlyExisting);
      }
    }
  }

  // ---------------------------------------------------------------- one property value

  function TextUntil(ts: seq<Token>, name: string): string
    decreases |ts|
  {
    if ts == [] || ts[0] == End(name) then ""
    else (if ts[0].Chars? then ts[0].text else "") + TextUntil(ts[1..], name)
  }

  /** The text of the first element of a name; what there is of it if the stream breaks off. */
  function PropValue(ts: seq<Token>, name: string): string
    decreases |ts|
  {
    if ts == [] then ""
    else if ts[0] == Start(name) then TrimSpace(TextUntil(ts[1..], name))
    else PropValue(ts[1..], name)
  }

  lemma TextUntilStep(ts: seq<Token>, i: nat, name: string, text: string)
    requires i < |ts|
    ensures text + TextUntil(ts[i..], name) ==
            if ts[i] == End(name) then text
            else if ts[i].Chars? then (text + ts[i].text) + TextUntil(ts[i + 1..], name)
            else text + TextUntil(ts[i + 1..], name)
  {
    var rest := TextUntil(ts[i + 1..], name);
    assert ts[i..][0] == ts[i] && ts[i..][1..] == ts[i + 1..];
    assert text + "" == text && "" + rest == rest;
    if ts[i].Chars? {
      assert text + (ts[i].text + rest) == (text + ts[i].text) + rest;
    }
  }

  /** The inner loop of `xmlPropValue`. */
  method CollectText(ts: seq<Token>, start: nat, name: string) returns (text: string)
    requires start <= |ts|
    ensures text == TextUntil(ts[start..], name)
  {
    text := "";
    var pos := start;
    assert text + TextUntil(ts[pos..], name) == TextUntil(ts[pos..], name);
    while pos < |ts|
      invariant start <= pos <= |ts|
      invariant TextUntil(ts[start..], name) == text + TextUntil(ts[pos..], name)
    {
      TextUntilStep(ts, pos, name, text);
      var t := ts[pos];
      pos := pos + 1;
      if t.Chars? {
        text := text + t.text;
      } else if t == End(name) {
        return;
      }
    }
    assert text + "" == text;
  }

  /** `xmlPropValue`: the outer loop. */
  method XmlPropValue(ts: seq<Token>, name: string) returns (value: string)
    ensures value == PropValue(ts, name)
  {
    var pos := 0;
    assert ts[0..] == ts;
    while pos < |ts|
      invariant pos <= |ts| && PropValue(ts, name) == PropValue(ts[pos..], name)
    {
      assert ts[pos..][0] == ts[pos] && ts[pos..][1..] == ts[pos + 1..];
      pos := pos + 1;
      if ts[pos - 1] != Start(name) { continue; }
      var text := CollectText(ts, pos, name);
      return TrimSpace(text);
    }
    return "";
  }

  /** The content of the first element of a name, in document order. */
  function FirstNamed(xs: seq<Xml>, name: string): Option<seq<Xml>>
    decreases xs
  {
    if xs == [] then None
    else
      var here := if !xs[0].Elem? then None
                  else if xs[0].name == name then Some(xs[0].children)
                  else FirstNamed(xs[0].children, name);
      if here.Some? then here else FirstNamed(xs[1..], name)
  }

  /** What is read of a cut-off field, with what comes behind it. */
  function ReadOn(c: Cut, name: string, rest: seq<Token>): string {
    if c.closed then c.text else c.text + TextUntil(rest, name)
  }

  lemma PrintCons(xs: seq<Xml>, rest: seq<Token>)
    requires xs != []
    ensures PrintAll(xs) + rest == Print(xs[0]) + (PrintAll(xs[1..]) + rest)
  {
  }

  lemma PrintElem(name: string, children: seq<Xml>, rest: seq<Token>)
    ensures Print(Elem(name, children)) + rest == [Start(name)] + (PrintAll(children) + ([End(name)] + rest))
  {
  }

  lemma TextUntilToken(t: Token, rest: seq<Token>, name: string)
    ensures TextUntil([t] + rest, name) == if t == End(name) then "" else (if t.Chars? then t.text else "") + TextUntil(rest, name)
  {
    assert ([t] + rest)[1..] == rest;
  }

  lemma {:induction false} TextUntilElem(n: string, children: seq<Xml>, rest: seq<Token>, name: string)
    ensures TextUntil(Print(Elem(n, children)) + rest, name) == TextUntil(PrintAll(children) + ([End(n)] + rest), name)
  {
    var inner := PrintAll(children) + ([End(n)] + rest);
    PrintElem(n, children, rest);
    TextUntilToken(Start(n), inner, name);
    assert "" + TextUntil(inner, name) == TextUntil(inner, name);
  }

  lemma {:induction false} ReadOnEnd(inner: Cut, n: string, name: string, rest: seq<Token>)
    ensures ReadOn(inner, name, [End(n)] + rest) == ReadOn(if !inner.closed && n == name then inner.(closed := true) else inner, name, rest)
  {
    TextUntilToken(End(n), rest, name);
    assert inner.text + "" == inner.text && "" + TextUntil(rest, name) == TextUntil(rest, name);
  }

  lemma {:induction false} TextUntilNode(x: Xml, name: string, rest: seq<Token>)
    ensures TextUntil(Print(x) + rest, name) == ReadOn(CutNode(x, name), name, rest)
    decreases x, 0
  {
    match x {
      case Elem(n, children) =>
        TextUntilElem(n, children, rest, name);
        TextUntilCut(children, name, [End(n)] + rest);
        ReadOnEnd(CutAt(children, name), n, name, rest);
      case Text(t) => TextUntilToken(Chars(t), rest, name);
      case Misc => TextUntilToken(Other, rest, name);
    }
  }

  /** Reading on through what is not closed. */
  lemma ReadOnJoins(here: Cut, after: Cut, name: string, rest: seq<Token>)
    ensures here.text + ReadOn(after, name, rest) == ReadOn(after.(text := here.text + after.text), name, rest)
  {
    assert here.text + (after.text + TextUntil(rest, name)) == (here.text + after.text) + TextUntil(rest, name);
  }

  lemma {:induction false} TextUntilCut(xs: seq<Xml>, name: string, rest: seq<Token>)
    ensures TextUntil(PrintAll(xs) + rest, name) == ReadOn(CutAt(xs, name), name, rest)
    decreases xs
  {
    if xs == [] {
      assert PrintAll(xs) + rest == rest && "" + TextUntil(rest, name) == TextUntil(rest, name);
    } else {
      var here := CutNode(xs[0], name);
      PrintCons(xs, rest);
      TextUntilNode(xs[0], name, PrintAll(xs[1..]) + rest);
      if !here.closed {
        TextUntilCut(xs[1..], name, rest);
        ReadOnJoins(here, CutAt(xs[1..], name), name, rest);
      }
    }
  }

  lemma PropToken(t: Token, rest: seq<Token>, name: string)
    ensures PropValue([t] + rest, name) == if t == Start(name) then TrimSpace(TextUntil(rest, name)) else PropValue(rest, name)
  {
    assert ([t] + rest)[1..] == rest;
  }

  /** Reading a property back from any printed document gives the trimmed text of the first element of its name, up to the first
      closing tag of that name. */
  lemma {:induction false} PropOfPrinted(xs: seq<Xml>, name: string, rest: seq<Token>)
    ensures PropValue(PrintAll(xs) + rest, name) ==
            if FirstNamed(xs, name).Some? then TrimSpace(CutAt(FirstNamed(xs, name).value, name).text) else PropValue(rest, name)
    decreases xs
  {
    if xs == [] {
      assert PrintAll(xs) + rest == rest;
    } else {
      var x, more := xs[0], PrintAll(xs[1..]) + rest;
      PrintCons(xs, rest);
      match x {
        case Elem(n, children) =>
          PrintElem(n, children, more);
          PropToken(Start(n), PrintAll(children) + ([End(n)] + more), name);
          if n == name {
            TextUntilCut(children, name, [End(n)] + more);
            TextUntilToken(End(n), more, name);
            var text := CutAt(children, name).text;
            assert text + "" == text;
          } else {
            PropOfPrinted(children, name, [End(n)] + more);
            PropToken(End(n), more, name);
            if FirstNamed(children, name).None? {
              PropOfPrinted(xs[1..], name, rest);
            }
          }
        case Text(t) =>
          PropToken(Chars(t), more, name);
          PropOfPrinted(xs[1..], name, rest);
        case Misc =>
          PropToken(Other, more, name);
          PropOfPrinted(xs[1..], name, rest);
      }
    }
  }

  // ---------------------------------------------------------------- escaping

  function ReplaceAll(s: string, c: char, r: string): string {
    if s == "" then "" else (if s[0] == c then r else [s[0]]) + ReplaceAll(s[1..], c, r)
  }

  /** `xmlEscape`: three replacements, ampersands first. */
  function XmlEscape(s: string): string {
    ReplaceAll(ReplaceAll(ReplaceAll(s, '&', "&amp;"), '<', "&lt;"), '>', "&gt;")
  }

  /** How an XML reader takes the three entities back. */
  function XmlUnescape(s: string): string
    decreases |s|
  {
    if s == "" then ""
    else if "&amp;" <= s then "&" + XmlUnescape(s[5..])
    else if "&lt;" <= s then "<" + XmlUnescape(s[4..])
    else if "&gt;" <= s then ">" + XmlUnescape(s[4..])
    else [s[0]] + XmlUnescape(s[1..])
  }

  lemma {:induction false} ReplaceConcat(a: string, b: string, c: char, r: string)
    ensures ReplaceAll(a + b, c, r) == ReplaceAll(a, c, r) + ReplaceAll(b, c, r)
  {
    if a == "" {
      assert a + b == b;
    } else {
      assert (a + b)[1..] == a[1..] + b;
      ReplaceConcat(a[1..], b, c, r);
    }
  }

  lemma {:induction false} ReplaceAbsent(s: string, c: char, r: string)
    requires c !in s
    ensures ReplaceAll(s, c, r) == s
  {
    if s != "" {
      ReplaceAbsent(s[1..], c, r);
    }
  }

  function Entity(c: char): string {
    if c == '&' then "&amp;" else if c == '<' then "&lt;" else if c == '>' then "&gt;" else [c]
  }

  /** Character by character: three become the predefined entities of XML 1.0, section 4.6, and all others stay. */
  lemma EscapeFirst(c: char, rest: string)
    ensures XmlEscape([c] + rest) == Entity(c) + XmlEscape(rest)
    ensures Entity('&') == "&amp;" && Entity('<') == "&lt;" && Entity('>') == "&gt;" && (c !in "&<>" ==> Entity(c) == [c])
  {
    var one := [c];
    assert one[1..] == "" && ([c] + rest)[1..] == rest;
    var a := if c == '&' then "&amp;" else one;
    assert ReplaceAll([c] + rest, '&', "&amp;") == a + ReplaceAll(rest, '&', "&amp;");
    ReplaceConcat(a, ReplaceAll(rest, '&', "&amp;"), '<', "&lt;");
    var b := if c == '<' then "&lt;" else a;
    assert ReplaceAll(a, '<', "&lt;") == b by {
      if c != '<' { ReplaceAbsent(a, '<', "&lt;"); }
    }
    ReplaceConcat(b, ReplaceAll(ReplaceAll(rest, '&', "&amp;"), '<', "&lt;"), '>', "&gt;");
    assert ReplaceAll(b, '>', "&gt;") == Entity(c) by {
      if c != '>' { ReplaceAbsent(b, '>', "&gt;"); }
    }
  }

  lemma UnescapeFirst(c: char, rest: string)
    ensures XmlUnescape(Entity(c) + rest) == [c] + XmlUnescape(rest)
  {
    var e := Entity(c);
    var s := e + rest;
    assert s[|e|..] == rest && e <= s;
    if c == '<' || c == '>' {
      assert s[1] == e[1];
    }
  }

  /** A token put into a request is read back as it was, and cannot end the element it is put in. */
  lemma {:induction false} EscapeRoundTrip(s: string)
    ensures XmlUnescape(XmlEscape(s)) == s
    ensures '<' !in XmlEscape(s) && '>' !in XmlEscape(s)
  {
    if s != "" {
      assert s == [s[0]] + s[1..];
      EscapeFirst(s[0], s[1..]);
      EscapeRoundTrip(s[1..]);
      UnescapeFirst(s[0], XmlEscape(s[1..]));
    }
  }
}
