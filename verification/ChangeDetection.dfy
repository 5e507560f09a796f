/** Change detection and fetching of an authenticated CalDAV source. Every request of a fetch
    meets the source at its own moment (RFC 6578, sections 3.2 and 3.5). */
module ChangeDetection {
  import opened Records
  import opened Reconcile
  import opened Pipeline
  import opened SyncLoop
  import opened Connections

  // ---------------------------------------------------------------- merging resources

  /** What a GET of a resource brings. */
  datatype Body = GetFailed | Undecodable | Decoded(children: seq<Comp>)

  function Uid(c: Comp): string {
    TextOrEmpty(c.props, "UID")
  }

  predicate IsEvent(c: Comp) {
    c.name == "VEVENT" && TextOf(c.props, "UID").Some?
  }

  function EventsIn(cs: seq<Comp>): seq<Comp> {
    if cs == [] then [] else (if IsEvent(cs[0]) then [cs[0]] else []) + EventsIn(cs[1..])
  }

  function Candidates(bodies: seq<Body>): seq<Comp> {
    if bodies == [] then []
    else (if bodies[0].Decoded? then EventsIn(bodies[0].children) else []) + Candidates(bodies[1..])
  }

  /** Keeps the first event of every UID not seen before. */
  function FirstWins(cs: seq<Comp>, seen: set<string>): seq<Comp> {
    if cs == [] then []
    else if Uid(cs[0]) in seen then FirstWins(cs[1..], seen)
    else [cs[0]] + FirstWins(cs[1..], seen + {Uid(cs[0])})
  }

  function UidsOf(cs: seq<Comp>): set<string> {
    set c <- cs :: Uid(c)
  }

  lemma {:induction false} EventsInAre(cs: seq<Comp>)
    ensures forall c :: c in EventsIn(cs) <==> c in cs && IsEvent(c)
  {
    if cs != [] {
      EventsInAre(cs[1..]);
      assert cs == [cs[0]] + cs[1..];
    }
  }

  lemma {:induction false} CandidatesAre(bodies: seq<Body>)
    ensures forall c :: c in Candidates(bodies) <==> exists b <- bodies :: b.Decoded? && c in b.children && IsEvent(c)
  {
    if bodies != [] {
      CandidatesAre(bodies[1..]);
      if bodies[0].Decoded? {
        EventsInAre(bodies[0].children);
      }
      assert bodies == [bodies[0]] + bodies[1..];
    }
  }

  lemma UidsOfCons(c: Comp, rest: seq<Comp>)
    ensures UidsOf([c] + rest) == {Uid(c)} + UidsOf(rest)
  {
    assert forall x :: x in [c] + rest <==> x == c || x in rest;
  }

  lemma {:induction false} FirstWinsConcat(a: seq<Comp>, b: seq<Comp>, seen: set<string>)
    ensures FirstWins(a + b, seen) == FirstWins(a, seen) + FirstWins(b, seen + UidsOf(a))
  {
    if a == [] {
      assert a + b == b && seen + UidsOf(a) == seen;
    } else {
      var uid := Uid(a[0]);
      assert (a + b)[1..] == a[1..] + b && a == [a[0]] + a[1..];
      UidsOfCons(a[0], a[1..]);
      if uid in seen {
        FirstWinsConcat(a[1..], b, seen);
        assert seen + UidsOf(a) == seen + UidsOf(a[1..]);
      } else {
        FirstWinsConcat(a[1..], b, seen + {uid});
        assert seen + UidsOf(a) == (seen + {uid}) + UidsOf(a[1..]);
      }
    }
  }

  /** What is left to merge of a resource. */
  ghost predicate Merging(whole: seq<Comp>, before: set<string>, kept: seq<Comp>, rest: seq<Comp>, seen: set<string>) {
    && FirstWins(whole, before) == kept + FirstWins(rest, seen)
    && before + UidsOf(whole) == seen + UidsOf(rest)
  }

  lemma MergingStep(whole: seq<Comp>, before: set<string>, kept: seq<Comp>, c: Comp, rest: seq<Comp>, seen: set<string>)
    requires Merging(whole, before, kept, [c] + rest, seen)
    ensures if Uid(c) in seen then Merging(whole, before, kept, rest, seen)
            else Merging(whole, before, kept + [c], rest, seen + {Uid(c)})
  {
    assert ([c] + rest)[1..] == rest;
    UidsOfCons(c, rest);
    if Uid(c) !in seen {
      assert kept + ([c] + FirstWins(rest, seen + {Uid(c)})) == (kept + [c]) + FirstWins(rest, seen + {Uid(c)});
    }
  }

  lemma EventsInStep(cs: seq<Comp>, i: nat)
    requires i < |cs|
    ensures EventsIn(cs[i..]) == if IsEvent(cs[i]) then [cs[i]] + EventsIn(cs[i + 1..]) else EventsIn(cs[i + 1..])
  {
    assert cs[i..][0] == cs[i] && cs[i..][1..] == cs[i + 1..];
  }

  /** The events of one resource, those of seen UIDs dropped. */
  method MergeChildren(children: seq<Comp>, before: set<string>) returns (kept: seq<Comp>, seen: set<string>)
    ensures kept == FirstWins(EventsIn(children), before)
    ensures seen == before + UidsOf(EventsIn(children))
  {
    kept, seen := [], before;
    assert children[0..] == children;
    for i := 0 to |children|
      invariant Merging(EventsIn(children), before, kept, EventsIn(children[i..]), seen)
    {
      EventsInStep(children, i);
      if children[i].name != "VEVENT" { continue; }
      var uid := TextOf(children[i].props, "UID");
      if uid.None? { continue; }
      MergingStep(EventsIn(children), before, kept, children[i], EventsIn(children[i + 1..]), seen);
      if uid.value in seen { continue; }
      seen := seen + {uid.value};
      kept := kept + [children[i]];
    }
  }

  /** One failed GET fails the merge; an undecodable resource is skipped. */
  method MergeCalendar(bodies: seq<Body>) returns (ok: bool, merged: seq<Comp>)
    ensures ok <==> GetFailed !in bodies
    ensures ok ==> merged == FirstWins(Candidates(bodies), {})
  {
    merged := [];
    var seen: set<string> := {};
    assert bodies[0..] == bodies;
    for i := 0 to |bodies|
      invariant GetFailed !in bodies[..i]
      invariant FirstWins(Candidates(bodies), {}) == merged + FirstWins(Candidates(bodies[i..]), seen)
    {
      assert bodies[i..][0] == bodies[i] && bodies[i..][1..] == bodies[i + 1..];
      if bodies[i].GetFailed? { return false, []; }
      if bodies[i].Undecodable? {
        assert Candidates(bodies[i..]) == Candidates(bodies[i + 1..]);
        continue;
      }
      FirstWinsConcat(EventsIn(bodies[i].children), Candidates(bodies[i + 1..]), seen);
      var kept;
      kept, seen := MergeChildren(bodies[i].children, seen);
      merged := merged + kept;
    }
    assert bodies[..|bodies|] == bodies;
    ok := true;
  }

  ghost predicate DistinctUids(cs: seq<Comp>) {
    forall i, j :: 0 <= i < j < |cs| ==> Uid(cs[i]) != Uid(cs[j])
  }

  /** Merging keeps one event of every UID that occurs, and none twice. */
  lemma {:induction false} FirstWinsIs(cs: seq<Comp>, seen: set<string>)
    ensures var r := FirstWins(cs, seen);
            && (forall c <- r :: c in cs && Uid(c) !in seen)
            && UidsOf(r) == UidsOf(cs) - seen
            && DistinctUids(r)
  {
    if cs != [] {
      var c, tail := cs[0], cs[1..];
      assert cs == [c] + tail;
      UidsOfCons(c, tail);
      if Uid(c) in seen {
        FirstWinsIs(tail, seen);
      } else {
        var rest := FirstWins(tail, seen + {Uid(c)});
        FirstWinsIs(tail, seen + {Uid(c)});
        UidsOfCons(c, rest);
        forall i, j | 0 <= i < j < |[c] + rest| ensures Uid(([c] + rest)[i]) != Uid(([c] + rest)[j]) {
          if i == 0 {
            assert rest[j - 1] in rest;
          }
        }
      }
    }
  }

  /** Without repeated UIDs merging loses nothing. */
  lemma {:induction false} FirstWinsAll(cs: seq<Comp>, seen: set<string>)
    requires DistinctUids(cs) && seen !! UidsOf(cs)
    ensures FirstWins(cs, seen) == cs
  {
    if cs != [] {
      var c, tail := cs[0], cs[1..];
      assert cs == [c] + tail;
      UidsOfCons(c, tail);
      forall x <- tail ensures Uid(x) != Uid(c) {
        var j :| 0 <= j < |tail| && tail[j] == x;
        assert cs[j + 1] == x;
      }
      assert DistinctUids(tail) by {
        forall i, j | 0 <= i < j < |tail| ensures Uid(tail[i]) != Uid(tail[j]) {
          assert tail[i] == cs[i + 1] && tail[j] == cs[j + 1];
        }
      }
      FirstWinsAll(tail, seen + {Uid(c)});
    }
  }

  /** Position `i` holds the event, and none before it its UID. */
  ghost predicate FirstAt(cs: seq<Comp>, c: Comp, i: nat) {
    i < |cs| && cs[i] == c && forall j :: 0 <= j < i ==> Uid(cs[j]) != Uid(c)
  }

  /** The event is the first of its UID. */
  ghost predicate Foremost(cs: seq<Comp>, c: Comp) {
    exists i: nat :: FirstAt(cs, c, i)
  }

  lemma FirstAtCons(cs: seq<Comp>, c: Comp, i: nat)
    requires cs != []
    ensures FirstAt(cs, c, i + 1) <==> Uid(c) != Uid(cs[0]) && FirstAt(cs[1..], c, i)
  {
    if FirstAt(cs[1..], c, i) && Uid(c) != Uid(cs[0]) {
      forall j | 0 <= j < i + 1 ensures Uid(cs[j]) != Uid(c) {
        assert j > 0 ==> cs[j] == cs[1..][j - 1];
      }
    }
    if FirstAt(cs, c, i + 1) {
      assert Uid(cs[0]) != Uid(c);
      forall j | 0 <= j < i ensures Uid(cs[1..][j]) != Uid(c) {
        assert cs[1..][j] == cs[j + 1];
      }
    }
  }

  lemma ForemostCons(cs: seq<Comp>, c: Comp)
    requires cs != []
    ensures Foremost(cs, c) <==> c == cs[0] || (Uid(c) != Uid(cs[0]) && Foremost(cs[1..], c))
  {
    assert c == cs[0] ==> FirstAt(cs, c, 0);
    if i: nat :| FirstAt(cs[1..], c, i) {
      FirstAtCons(cs, c, i);
    }
    if i: nat :| FirstAt(cs, c, i) {
      if i > 0 {
        FirstAtCons(cs, c, i - 1);
      }
    }
  }

  /** Merging keeps exactly the first event of each UID. */
  lemma {:induction false} FirstWinsForemost(cs: seq<Comp>, seen: set<string>, c: Comp)
    ensures c in FirstWins(cs, seen) <==> Uid(c) !in seen && Foremost(cs, c)
  {
    if cs != [] {
      ForemostCons(cs, c);
      FirstWinsForemost(cs[1..], if Uid(cs[0]) in seen then seen else seen + {Uid(cs[0])}, c);
    }
  }

  // ---------------------------------------------------------------- a source over time

  /** A collection at one moment: its resources by address, `None` for one that does not decode. */
  type Snapshot = map<string, Option<seq<Comp>>>

  /** A source's successive versions, and the tokens it shows in each. */
  datatype Source = Source(history: seq<Snapshot>, ctag: nat -> string, token: nat -> string) {
    function StateAt(v: nat): CalendarState {
      CalendarState(ctag(v), token(v), "")
    }
  }

  /** What the requests of one fetch see, each at its own moment: the addresses of the REPORT with the token it carries,
      the two listings that may be asked for, the resources, and the state read at the end if that succeeds. */
  datatype Observed = Observed(reported: seq<string>, reportToken: string, listed: seq<string>, relisted: seq<string>,
                               body: string -> Body, finalState: Option<CalendarState>)

  /** The addresses whose resources are fetched. A REPORT without live changes falls back to listing everything. */
  function FetchedHrefs(token: string, o: Observed): seq<string> {
    var first := if token != "" then o.reported else o.listed;
    if first == [] then o.relisted else first
  }

  function BodiesOf(hrefs: seq<string>, o: Observed): (r: seq<Body>)
    ensures |r| == |hrefs|
  {
    seq(|hrefs|, i requires 0 <= i < |hrefs| => o.body(hrefs[i]))
  }

  /** `fetchCalDAVEvents` with a sync token: the merged calendar and the state to save. `encodes` says whether the merged
      calendar can be written out. */
  function FetchEvents(token: string, o: Observed, encodes: seq<Comp> -> bool): Option<Fetched> {
    var bodies := BodiesOf(FetchedHrefs(token, o), o);
    var merged := FirstWins(Candidates(bodies), {});
    if GetFailed in bodies || !encodes(merged) then None
    else
      var state := if o.finalState.Some? then CalendarState(o.finalState.value.ctag, o.finalState.value.syncToken, "")
                   else CalendarState("", if token != "" then o.reportToken else "", "");
      Some(Fetched(Some(merged), state))
  }

  /** The loop form: list, fetch every resource, merge, read the state. */
  method FetchCalDAVEvents(token: string, o: Observed, encodes: seq<Comp> -> bool) returns (r: Option<Fetched>)
    ensures r == FetchEvents(token, o, encodes)
  {
    var hrefs := if token != "" then o.reported else o.listed;
    if hrefs == [] {
      hrefs := o.relisted;
    }
    var bodies: seq<Body> := [];
    for i := 0 to |hrefs|
      invariant |bodies| == i && forall j :: 0 <= j < i ==> bodies[j] == o.body(hrefs[j])
    {
      bodies := bodies + [o.body(hrefs[i])];
    }
    assert bodies == BodiesOf(hrefs, o);
    var ok, merged := MergeCalendar(bodies);
    if !ok || !encodes(merged) { return None; }
    var state := CalendarState("", if token != "" then o.reportToken else "", "");
    if o.finalState.Some? {
      state := state.(ctag := o.finalState.value.ctag, syncToken := o.finalState.value.syncToken);
    }
    return Some(Fetched(Some(merged), state));
  }

  /** The events at the addresses, one resource after the other: whatever is called VEVENT and has no undecodable UID. */
  function EventsFound(hrefs: seq<string>, body: string -> Body): seq<Comp> {
    if hrefs == [] then []
    else (match body(hrefs[0])
          case GetFailed => []
          case Undecodable => []
          case Decoded(children) => EventsIn(children)) + EventsFound(hrefs[1..], body)
  }

  lemma EventIs(c: Comp)
    ensures IsEvent(c) <==> c.name == "VEVENT" && ("UID" in c.props && c.props["UID"] != [] ==> c.props["UID"][0].text.Some?)
    ensures "UID" in c.props && c.props["UID"] != [] && c.props["UID"][0].text.Some? ==> Uid(c) == c.props["UID"][0].text.value
  {
  }

  lemma {:induction false} CandidatesFound(hrefs: seq<string>, o: Observed)
    ensures Candidates(BodiesOf(hrefs, o)) == EventsFound(hrefs, o.body)
  {
    var bodies := BodiesOf(hrefs, o);
    if hrefs != [] {
      CandidatesFound(hrefs[1..], o);
      assert bodies[1..] == BodiesOf(hrefs[1..], o);
    }
  }

  lemma FailureSeen(hrefs: seq<string>, o: Observed)
    ensures GetFailed in BodiesOf(hrefs, o) <==> exists h <- hrefs :: o.body(h).GetFailed?
  {
    var bodies := BodiesOf(hrefs, o);
    if h :| h in hrefs && o.body(h).GetFailed? {
      var i :| 0 <= i < |hrefs| && hrefs[i] == h;
      assert bodies[i] == GetFailed;
    }
    if i :| 0 <= i < |bodies| && bodies[i] == GetFailed {
      assert hrefs[i] in hrefs;
    }
  }

  /** A fetch asks for what a REPORT or else a listing names, and for a full listing if that is nothing. It fails exactly if one of these
      resources cannot be had or the merged calendar cannot be written out, and else brings the first event of each UID in them, with the
      state read at the end, or failing that the token of the REPORT. */
  lemma {:induction false} FetchIs(token: string, o: Observed, encodes: seq<Comp> -> bool)
    ensures var asked := if token != "" && o.reported != [] then o.reported else if token == "" && o.listed != [] then o.listed else o.relisted;
            var merged := FirstWins(EventsFound(asked, o.body), {});
            && FetchedHrefs(token, o) == asked
            && (FetchEvents(token, o, encodes).None? <==> (exists h <- asked :: o.body(h).GetFailed?) || !encodes(merged))
            && (FetchEvents(token, o, encodes).Some? ==>
                  var f := FetchEvents(token, o, encodes).value;
                  && f.feed == Some(merged)
                  && f.state == match o.finalState {
                                  case Some(st) => CalendarState(st.ctag, st.syncToken, "")
                                  case None => CalendarState("", if token == "" then "" else o.reportToken, "")
                                })
  {
    FailureSeen(FetchedHrefs(token, o), o);
    CandidatesFound(FetchedHrefs(token, o), o);
  }

  /** A turn whose fetch meets a failed GET, or cannot write out what it has, comes to nothing. */
  lemma {:induction false} FailedFetchFailsTurn(s: System, c: Connection, r: Round, encode: Comp -> Option<string>, token: string, o: Observed,
                                                encodes: seq<Comp> -> bool)
    requires c.known && r.probe.Some? && HasChanged(r.probe.value, LastState(s, c, r)) && r.fetch == FetchEvents(token, o, encodes)
    requires var asked := if token != "" && o.reported != [] then o.reported else if token == "" && o.listed != [] then o.listed else o.relisted;
             (exists h <- asked :: o.body(h).GetFailed?) || !encodes(FirstWins(EventsFound(asked, o.body), {}))
    ensures ValidRound(s, c, r, encode) && SyncConnection(s, c, r, encode) == Visit(s, FetchFailed, [])
  {
    FetchIs(token, o, encodes);
  }

  /** The resources added or modified between two versions, as far as they still exist. */
  function Changed(a: Snapshot, b: Snapshot): set<string> {
    set h <- b | h !in a || a[h] != b[h]
  }

  function BodyAt(s: Snapshot, h: string): Body {
    if h !in s then GetFailed else if s[h].None? then Undecodable else Decoded(s[h].value)
  }

  /** The events of one resource. */
  function EventsAt(s: Snapshot, h: string): set<Comp> {
    if h in s && s[h].Some? then set c <- s[h].value | IsEvent(c) else {}
  }

  /** The event is in some resource of the collection. */
  ghost predicate Holds(s: Snapshot, c: Comp) {
    exists h: string :: c in EventsAt(s, h)
  }

  ghost predicate HasUid(s: Snapshot, uid: string) {
    exists c :: Holds(s, c) && Uid(c) == uid
  }

  // ---------------------------------------------------------------- what a fetch brings

  /** The events that a fetch has to merge. */
  function Fetchable(token: string, o: Observed): seq<Comp> {
    Candidates(BodiesOf(FetchedHrefs(token, o), o))
  }

  /** The event is in a resource the fetch asks for, as the fetch sees it. */
  ghost predicate Gathered(o: Observed, hrefs: seq<string>, c: Comp) {
    IsEvent(c) && exists h <- hrefs :: o.body(h).Decoded? && c in o.body(h).children
  }

  lemma GatheredAre(o: Observed, hrefs: seq<string>)
    ensures forall c :: c in Candidates(BodiesOf(hrefs, o)) <==> Gathered(o, hrefs, c)
  {
    var bodies := BodiesOf(hrefs, o);
    CandidatesAre(bodies);
    forall c ensures c in Candidates(bodies) <==> Gathered(o, hrefs, c) {
      if c in Candidates(bodies) {
        var i :| 0 <= i < |bodies| && bodies[i].Decoded? && c in bodies[i].children && IsEvent(c);
        assert hrefs[i] in hrefs;
      }
      if Gathered(o, hrefs, c) {
        var i :| 0 <= i < |hrefs| && o.body(hrefs[i]).Decoded? && c in o.body(hrefs[i]).children;
        assert bodies[i] in bodies;
      }
    }
  }

  /** The merged calendar has an event of this UID. */
  ghost predicate Brings(f: Fetched, uid: string) {
    f.feed.Some? && exists c <- f.feed.value :: Uid(c) == uid
  }

  /** Whatever the requests see, a fetch brings a UID exactly if a resource it asked for holds it. */
  lemma FetchBrings(token: string, o: Observed, encodes: seq<Comp> -> bool, uid: string)
    requires FetchEvents(token, o, encodes).Some?
    ensures Brings(FetchEvents(token, o, encodes).value, uid) <==>
            exists c :: Gathered(o, FetchedHrefs(token, o), c) && Uid(c) == uid
  {
    var cs := Candidates(BodiesOf(FetchedHrefs(token, o), o));
    GatheredAre(o, FetchedHrefs(token, o));
    FirstWinsIs(cs, {});
    var f := FetchEvents(token, o, encodes).value;
    if Brings(f, uid) {
      var c :| c in f.feed.value && Uid(c) == uid;
      assert c in cs;
    }
    if c: Comp :| Gathered(o, FetchedHrefs(token, o), c) && Uid(c) == uid {
      assert uid in UidsOf(cs);
      assert uid in UidsOf(FirstWins(cs, {}));
    }
  }

  // ---------------------------------------------------------------- moments

  /** The versions that the requests of one fetch meet: the REPORT, the two listings, each GET, and the reading of the state. */
  datatype Moments = Moments(report: nat, list: nat, relist: nat, get: string -> nat, final: nat)

  /** The requests follow each other, and the probe that gave the token, which met version `v`. */
  ghost predicate InOrder(src: Source, v: nat, at: Moments) {
    && v <= at.report <= at.relist <= at.final && v <= at.list <= at.relist
    && (forall h: string :: at.relist <= at.get(h) <= at.final)
    && at.final < |src.history|
  }

  /** What the requests but for the listings see, each at its own moment. Reading the state may fail. */
  ghost predicate Sees(src: Source, v: nat, at: Moments, o: Observed) {
    && InOrder(src, v, at)
    && (forall h: string :: o.body(h) == BodyAt(src.history[at.get(h)], h))
    && o.reportToken == src.token(at.report)
    && (o.finalState.Some? ==> o.finalState.value == src.StateAt(at.final))
  }

  /** The listings are answered in full. A REPORT lists every change since its token, and nothing at all if nothing happened
      since (RFC 6578, section 3.5). The code does not ask for as much: it takes whatever addresses it can read. */
  ghost predicate WholeListings(src: Source, v: nat, at: Moments, o: Observed)
    requires InOrder(src, v, at)
  {
    && (forall h <- o.reported :: h in src.history[at.report])
    && (forall h <- Changed(src.history[v], src.history[at.report]) :: h in o.reported)
    && (v == at.report ==> o.reported == [])
    && Enumerates(o.listed, src.history[at.list].Keys) && Enumerates(o.relisted, src.history[at.relist].Keys)
  }

  /** What the fetch sees of a resource: nothing if it does not ask for it. */
  ghost function Seen(src: Source, at: Moments, hrefs: seq<string>, h: string): set<Comp>
    requires forall h: string :: at.get(h) < |src.history|
  {
    if h in hrefs then EventsAt(src.history[at.get(h)], h) else {}
  }

  lemma GatheredIsSeen(src: Source, v: nat, at: Moments, o: Observed, hrefs: seq<string>, c: Comp)
    requires Sees(src, v, at, o)
    ensures Gathered(o, hrefs, c) <==> exists h: string :: c in Seen(src, at, hrefs, h)
  {
    if Gathered(o, hrefs, c) {
      var h :| h in hrefs && o.body(h).Decoded? && c in o.body(h).children;
      assert o.body(h) == BodyAt(src.history[at.get(h)], h);
      assert c in Seen(src, at, hrefs, h);
    }
    if h: string :| c in Seen(src, at, hrefs, h) {
      assert o.body(h) == BodyAt(src.history[at.get(h)], h);
    }
  }

  /** A source that stands still, listed in full. From the probe that reported a change to the reading of the state nothing
      moves: then the current token reports no change, the fetch falls back to the whole calendar and brings every UID in it, saves
      the state the probe saw, and the next probe is "unchanged" as long as that state has tokens the source goes on showing. */
  lemma StableFetch(src: Source, v: nat, at: Moments, o: Observed, encodes: seq<Comp> -> bool)
    requires Sees(src, v, at, o) && WholeListings(src, v, at, o) && at.final == v
    requires FetchEvents(src.token(v), o, encodes).Some?
    ensures forall c :: Gathered(o, FetchedHrefs(src.token(v), o), c) <==> Holds(src.history[v], c)
    ensures var f := FetchEvents(src.token(v), o, encodes).value;
            && (forall uid :: Brings(f, uid) <==> HasUid(src.history[v], uid))
            && f.state == (if o.finalState.Some? then src.StateAt(v) else CalendarState("", src.token(v), ""))
            && (!HasChanged(src.StateAt(v), f.state) <==> HasTokens(f.state) && (o.finalState.Some? || src.ctag(v) == ""))
  {
    var hrefs := FetchedHrefs(src.token(v), o);
    forall c ensures Gathered(o, hrefs, c) <==> Holds(src.history[v], c) {
      StableGathers(src, v, at, o, c);
    }
    forall uid ensures Brings(FetchEvents(src.token(v), o, encodes).value, uid) <==> HasUid(src.history[v], uid) {
      FetchBrings(src.token(v), o, encodes, uid);
    }
  }

  lemma StableGathers(src: Source, v: nat, at: Moments, o: Observed, c: Comp)
    requires Sees(src, v, at, o) && WholeListings(src, v, at, o) && at.final == v
    ensures Gathered(o, FetchedHrefs(src.token(v), o), c) <==> Holds(src.history[v], c)
  {
    var hrefs := FetchedHrefs(src.token(v), o);
    GatheredIsSeen(src, v, at, o, hrefs, c);
    forall h: string ensures Seen(src, at, hrefs, h) == EventsAt(src.history[v], h) {
      assert at.relist <= at.get(h) <= at.final;
      if h in src.history[v] {
        WholeListing(src, v, at, o, h);
      }
    }
  }

  lemma WholeListing(src: Source, v: nat, at: Moments, o: Observed, h: string)
    requires InOrder(src, v, at) && WholeListings(src, v, at, o) && at.final == v && h in src.history[v]
    ensures h in FetchedHrefs(src.token(v), o)
  {
    assert at.relist <= at.get(h) <= at.final;
  }

  /** No two events of the collection have one UID, not even a recurring event and its overrides. */
  ghost predicate NoUidTwice(s: Snapshot) {
    forall c, d :: Holds(s, c) && Holds(s, d) && Uid(c) == Uid(d) ==> c == d
  }

  /** The merged calendar has the events of the collection and no others. */
  ghost predicate UpToDate(f: Fetched, s: Snapshot) {
    f.feed.Some? && forall c :: c in f.feed.value <==> Holds(s, c)
  }

  /** The first events of their UIDs among those gathered are the events of the collection. */
  ghost predicate FetchedAre(token: string, o: Observed, s: Snapshot) {
    forall c :: Foremost(Fetchable(token, o), c) <==> Holds(s, c)
  }

  /** Whatever the requests see: what was fetched is the content of a collection exactly if the first event of every UID gathered is; and
      never if the collection has a UID twice. */
  lemma {:induction false} UpToDateIs(token: string, o: Observed, encodes: seq<Comp> -> bool, s: Snapshot)
    requires FetchEvents(token, o, encodes).Some?
    ensures UpToDate(FetchEvents(token, o, encodes).value, s) <==> FetchedAre(token, o, s)
    ensures UpToDate(FetchEvents(token, o, encodes).value, s) ==> NoUidTwice(s)
  {
    var feed, cs := FetchEvents(token, o, encodes).value.feed.value, Fetchable(token, o);
    forall c ensures c in feed <==> Foremost(cs, c) {
      FirstWinsForemost(cs, {}, c);
    }
    FirstWinsIs(cs, {});
    if UpToDate(FetchEvents(token, o, encodes).value, s) {
      forall c, d | Holds(s, c) && Holds(s, d) && Uid(c) == Uid(d) ensures c == d {
        var i, j :| 0 <= i < |feed| && 0 <= j < |feed| && feed[i] == c && feed[j] == d;
      }
    }
  }

  /** While the source stands still and is listed in full, merging loses nothing exactly if no UID occurs twice. */
  lemma {:induction false} StableUpToDate(src: Source, v: nat, at: Moments, o: Observed, encodes: seq<Comp> -> bool)
    requires Sees(src, v, at, o) && WholeListings(src, v, at, o) && at.final == v
    requires FetchEvents(src.token(v), o, encodes).Some?
    ensures UpToDate(FetchEvents(src.token(v), o, encodes).value, src.history[v]) <==> NoUidTwice(src.history[v])
  {
    var feed, cs := FetchEvents(src.token(v), o, encodes).value.feed.value, Fetchable(src.token(v), o);
    StableFetch(src, v, at, o, encodes);
    GatheredAre(o, FetchedHrefs(src.token(v), o));
    FirstWinsIs(cs, {});
    UpToDateIs(src.token(v), o, encodes, src.history[v]);
    if NoUidTwice(src.history[v]) {
      forall c ensures c in feed <==> Holds(src.history[v], c) {
        if Holds(src.history[v], c) {
          assert Uid(c) in UidsOf(cs);
          assert Uid(c) in UidsOf(feed);
          var d :| d in feed && Uid(d) == Uid(c);
          assert d in cs;
        }
      }
    }
  }

  /** Every UID of the collection occurs in a resource the fetch asks for, as the fetch sees it. */
  ghost predicate Cover(s: Snapshot, o: Observed, hrefs: seq<string>) {
    forall c :: Holds(s, c) ==> exists d :: Gathered(o, hrefs, d) && Uid(d) == Uid(c)
  }

  /** A source that moves at any time. Whatever was listed and whatever each GET brought, the fetch has every UID that the
      source holds at the end exactly if the fetched resources cover it; and they do if nothing moves once a full listing is taken. */
  lemma MovingFetch(src: Source, v: nat, at: Moments, o: Observed, token: string, encodes: seq<Comp> -> bool)
    requires Sees(src, v, at, o) && FetchEvents(token, o, encodes).Some?
    ensures var f, s, hrefs := FetchEvents(token, o, encodes).value, src.history[at.final], FetchedHrefs(token, o);
            && ((forall uid :: HasUid(s, uid) ==> Brings(f, uid)) <==> Cover(s, o, hrefs))
            && (WholeListings(src, v, at, o) && at.relist == at.final && hrefs == o.relisted ==> Cover(s, o, hrefs))
  {
    var f, s, hrefs := FetchEvents(token, o, encodes).value, src.history[at.final], FetchedHrefs(token, o);
    forall uid ensures Brings(f, uid) <==> exists c :: Gathered(o, hrefs, c) && Uid(c) == uid {
      FetchBrings(token, o, encodes, uid);
    }
    if forall uid :: HasUid(s, uid) ==> Brings(f, uid) {
      forall c | Holds(s, c) ensures exists d :: Gathered(o, hrefs, d) && Uid(d) == Uid(c) {
        assert HasUid(s, Uid(c));
      }
    }
    if WholeListings(src, v, at, o) && at.relist == at.final && hrefs == o.relisted {
      forall c | Holds(s, c) ensures Gathered(o, hrefs, c) {
        RelistedGathers(src, v, at, o, hrefs, c);
      }
    }
  }

  lemma RelistedGathers(src: Source, v: nat, at: Moments, o: Observed, hrefs: seq<string>, c: Comp)
    requires Sees(src, v, at, o) && WholeListings(src, v, at, o) && at.relist == at.final && hrefs == o.relisted
    requires Holds(src.history[at.final], c)
    ensures Gathered(o, hrefs, c)
  {
    var h: string :| c in EventsAt(src.history[at.final], h);
    assert at.relist <= at.get(h) <= at.final;
    assert c in Seen(src, at, hrefs, h);
    GatheredIsSeen(src, v, at, o, hrefs, c);
  }

  // ---------------------------------------------------------------- what the saved state is worth

  /** The source always shows a token, and shows the same one only while its content is the same. */
  ghost predicate Honest(src: Source) {
    forall i, j :: 0 <= i < |src.history| && 0 <= j < |src.history| && src.token(i) == src.token(j) ==>
      src.token(i) != "" && src.history[i] == src.history[j]
  }

  /** At any time a resource holds at most one event, and its address goes with the event's UID. */
  ghost predicate OneEach(src: Source, uidOf: string -> string) {
    && (forall h, g :: h != g ==> uidOf(h) != uidOf(g))
    && (forall i, h :: 0 <= i < |src.history| ==>
          forall c, d :: c in EventsAt(src.history[i], h) && d in EventsAt(src.history[i], h) ==> c == d && Uid(c) == uidOf(h))
  }

  /** Whenever a later probe calls the source unchanged, what was fetched is what the source holds. */
  ghost predicate Vouches(src: Source, f: Fetched) {
    forall y :: 0 <= y < |src.history| && !HasChanged(src.StateAt(y), f.state) ==> UpToDate(f, src.history[y])
  }

  /** A later probe can call the source unchanged. */
  ghost predicate CanSettle(src: Source, f: Fetched) {
    exists y :: 0 <= y < |src.history| && !HasChanged(src.StateAt(y), f.state)
  }

  /** The version whose tokens are saved: where the state was read, or the REPORT if that failed. */
  function SavedAt(at: Moments, o: Observed): nat {
    if o.finalState.Some? then at.final else at.report
  }

  /** No resource had other events, or was missing, when the fetch saw it than in version `w`. */
  ghost predicate SeenAsAt(src: Source, at: Moments, hrefs: seq<string>, w: nat)
    requires w < |src.history| && forall h: string :: at.get(h) < |src.history|
  {
    forall h: string :: Seen(src, at, hrefs, h) == EventsAt(src.history[w], h)
  }

  lemma SeenHasUid(src: Source, at: Moments, hrefs: seq<string>, uidOf: string -> string, h: string, c: Comp)
    requires OneEach(src, uidOf) && (forall h: string :: at.get(h) < |src.history|) && c in Seen(src, at, hrefs, h)
    ensures Uid(c) == uidOf(h)
  {
    assert c in EventsAt(src.history[at.get(h)], h);
  }

  /** With one event for each address nothing is lost in merging. */
  lemma {:induction false} MergedIsGathered(src: Source, v: nat, at: Moments, o: Observed, token: string, encodes: seq<Comp> -> bool,
                                            uidOf: string -> string, c: Comp)
    requires Sees(src, v, at, o) && OneEach(src, uidOf) && FetchEvents(token, o, encodes).Some?
    ensures c in FetchEvents(token, o, encodes).value.feed.value <==> Gathered(o, FetchedHrefs(token, o), c)
  {
    var hrefs := FetchedHrefs(token, o);
    var cs := Candidates(BodiesOf(hrefs, o));
    GatheredAre(o, hrefs);
    FirstWinsIs(cs, {});
    if Gathered(o, hrefs, c) {
      assert Uid(c) in UidsOf(cs);
      assert Uid(c) in UidsOf(FirstWins(cs, {}));
      var d :| d in FirstWins(cs, {}) && Uid(d) == Uid(c);
      SameUidSame(src, v, at, o, hrefs, uidOf, c, d);
    }
  }

  lemma {:induction false} SameUidSame(src: Source, v: nat, at: Moments, o: Observed, hrefs: seq<string>, uidOf: string -> string, c: Comp, d: Comp)
    requires Sees(src, v, at, o) && OneEach(src, uidOf) && Gathered(o, hrefs, c) && Gathered(o, hrefs, d) && Uid(c) == Uid(d)
    ensures c == d
  {
    GatheredIsSeen(src, v, at, o, hrefs, c);
    GatheredIsSeen(src, v, at, o, hrefs, d);
    var h: string, g: string :| c in Seen(src, at, hrefs, h) && d in Seen(src, at, hrefs, g);
    SeenHasUid(src, at, hrefs, uidOf, h, c);
    SeenHasUid(src, at, hrefs, uidOf, g, d);
    assert h == g;
    assert c in EventsAt(src.history[at.get(h)], h) && d in EventsAt(src.history[at.get(h)], h);
  }

  /** With one event for each address: what was fetched is what version `w` holds exactly if every resource was seen as it is in `w`. */
  lemma {:induction false} UpToDateByAddress(src: Source, v: nat, at: Moments, o: Observed, token: string, encodes: seq<Comp> -> bool,
                                      uidOf: string -> string, w: nat)
    requires Sees(src, v, at, o) && OneEach(src, uidOf) && FetchEvents(token, o, encodes).Some? && w < |src.history|
    ensures UpToDate(FetchEvents(token, o, encodes).value, src.history[w]) <==> SeenAsAt(src, at, FetchedHrefs(token, o), w)
  {
    var f, hrefs, s := FetchEvents(token, o, encodes).value, FetchedHrefs(token, o), src.history[w];
    forall c ensures c in f.feed.value <==> exists h: string :: c in Seen(src, at, hrefs, h) {
      MergedIsGathered(src, v, at, o, token, encodes, uidOf, c);
      GatheredIsSeen(src, v, at, o, hrefs, c);
    }
    if UpToDate(f, s) {
      forall h: string, c ensures c in Seen(src, at, hrefs, h) <==> c in EventsAt(s, h) {
        SameAddress(src, at, hrefs, uidOf, w, f, h, c);
      }
    }
  }

  lemma {:induction false} SameAddress(src: Source, at: Moments, hrefs: seq<string>, uidOf: string -> string, w: nat, f: Fetched, h: string, c: Comp)
    requires OneEach(src, uidOf) && w < |src.history| && UpToDate(f, src.history[w]) && forall h: string :: at.get(h) < |src.history|
    requires c in f.feed.value <==> exists h: string :: c in Seen(src, at, hrefs, h)
    ensures c in Seen(src, at, hrefs, h) <==> c in EventsAt(src.history[w], h)
  {
    if c in Seen(src, at, hrefs, h) {
      SeenHasUid(src, at, hrefs, uidOf, h, c);
      var g: string :| c in EventsAt(src.history[w], g);
      assert Uid(c) == uidOf(g);
    }
    if c in EventsAt(src.history[w], h) {
      assert Uid(c) == uidOf(h) && Holds(src.history[w], c);
      var g: string :| c in Seen(src, at, hrefs, g);
      SeenHasUid(src, at, hrefs, uidOf, g, c);
    }
  }

  /** A probe that calls the source unchanged met the content of the version whose tokens were saved. */
  lemma SettledMeans(src: Source, v: nat, at: Moments, o: Observed, token: string, encodes: seq<Comp> -> bool, y: nat)
    requires Sees(src, v, at, o) && Honest(src) && FetchEvents(token, o, encodes).Some? && y < |src.history|
    requires !HasChanged(src.StateAt(y), FetchEvents(token, o, encodes).value.state)
    ensures src.history[y] == src.history[SavedAt(at, o)]
  {
    assert src.token(y) == src.token(y);
    assert at.relist <= at.get("") <= at.final;
    assert src.token(y) == src.token(SavedAt(at, o));
  }

  /** Exactly when the saved state vouches for what was fetched. For an honest source: either no later probe can call the source
      unchanged, which takes a failed reading of the state; or the first events of their UIDs gathered are the events of the version
      whose tokens were saved. */
  lemma {:induction false} SavedStateVouches(src: Source, v: nat, at: Moments, o: Observed, token: string, encodes: seq<Comp> -> bool)
    requires Sees(src, v, at, o) && Honest(src) && FetchEvents(token, o, encodes).Some?
    ensures SavedAt(at, o) < |src.history|
    ensures var f := FetchEvents(token, o, encodes).value;
            && (Vouches(src, f) <==> CanSettle(src, f) ==> FetchedAre(token, o, src.history[SavedAt(at, o)]))
            && (o.finalState.Some? ==> CanSettle(src, f) && !HasChanged(src.StateAt(at.final), f.state))
  {
    var f, w := FetchEvents(token, o, encodes).value, SavedAt(at, o);
    assert at.relist <= at.get("") <= at.final;
    UpToDateIs(token, o, encodes, src.history[w]);
    forall y: nat | y < |src.history| && !HasChanged(src.StateAt(y), f.state) ensures src.history[y] == src.history[w] {
      SettledMeans(src, v, at, o, token, encodes, y);
    }
    if o.finalState.Some? {
      assert src.token(at.final) == src.token(at.final);
      assert !HasChanged(src.StateAt(at.final), f.state);
    }
  }

  /** With one event for each address, that is: every resource was seen as it is in the version whose tokens were saved. It takes no
      more than one change between a GET and the reading of the state to save tokens that hide it. */
  lemma {:induction false} VouchesByAddress(src: Source, v: nat, at: Moments, o: Observed, token: string, encodes: seq<Comp> -> bool,
                                            uidOf: string -> string)
    requires Sees(src, v, at, o) && Honest(src) && OneEach(src, uidOf) && FetchEvents(token, o, encodes).Some?
    ensures SavedAt(at, o) < |src.history|
    ensures var f := FetchEvents(token, o, encodes).value;
            Vouches(src, f) <==> CanSettle(src, f) ==> SeenAsAt(src, at, FetchedHrefs(token, o), SavedAt(at, o))
  {
    SavedStateVouches(src, v, at, o, token, encodes);
    UpToDateIs(token, o, encodes, src.history[SavedAt(at, o)]);
    UpToDateByAddress(src, v, at, o, token, encodes, uidOf, SavedAt(at, o));
  }
}
