/** Witnesses: turns in which nothing fails, at a destination that is in step with its source,
    and which nevertheless mark an event deleted that the source holds. */
module Scenes {
  import opened Text
  import opened Records
  import opened Storage
  import opened Reconcile
  import opened Pointwise
  import opened Convergence
  import opened Pipeline
  import opened Feed
  import opened SyncLoop
  import opened Connections
  import opened ChangeDetection
  import opened Races
  import opened Restore
  import Multistatus

  /** A source with two events, and the destination that has them both. The token saved for the source is not its current one. */
  datatype Scene = Scene(t: Target, url: string, edited: string, other: string, editedHref: string, otherHref: string,
                         before: string, after: string, savedToken: string, oldToken: string, newToken: string, extra: Props)

  predicate Fitting(x: Scene) {
    && x.t.prefix != "" && NoWildcard(x.t.prefix) && Carries(x.edited, x.t.prefix) && Carries(x.other, x.t.prefix)
    && x.edited != x.other && x.editedHref != x.otherHref && x.before != x.after
    && x.oldToken != "" && x.newToken != "" && x.savedToken != x.oldToken
  }

  /** An event of the scene; its time stamp and whatever else it has are the same for all. */
  function EventComp(x: Scene, uid: string, summary: string): Comp {
    Comp("VEVENT", SetText(SetText(x.extra, "UID", uid), "SUMMARY", summary), [])
  }

  /** The scene's own events can be written out, alone and as a calendar. */
  predicate Writable(x: Scene, summary: string, encodes: seq<Comp> -> bool, encode: Comp -> Option<string>) {
    && encodes([EventComp(x, x.edited, summary)])
    && encode(EventComp(x, x.edited, summary)).Some? && encode(EventComp(x, x.other, x.before)).Some?
  }

  /** The collection, with this summary on the edited event. */
  function Version(x: Scene, summary: string): Snapshot {
    map[x.editedHref := Some([EventComp(x, x.edited, summary)]), x.otherHref := Some([EventComp(x, x.other, x.before)])]
  }

  /** The source before and after the edit. */
  function SourceOf(x: Scene): Source {
    Source([Version(x, x.before), Version(x, x.after)], _ => "", v => if v == 0 then x.oldToken else x.newToken)
  }

  function ConnectionOf(x: Scene): Connection {
    Connection(x.t, x.url, [PrefixUid(x.t.prefix)], true)
  }

  function RowsOf(x: Scene, first: Content, second: Content): map<Key, Row> {
    map[Key(x.edited, x.t.name) := FreshRow(x.t, x.edited, first), Key(x.other, x.t.name) := FreshRow(x.t, x.other, second)]
  }

  /** Both events are at the destination, and the table knows them. */
  function StartOf(x: Scene, first: Content, second: Content): System {
    System(World(RowsOf(x, first, second), map[HrefFor(x.t.base, x.edited) := first, HrefFor(x.t.base, x.other) := second]),
           map[x.url := CalendarState("", x.savedToken, "")])
  }

  function TurnOf(x: Scene, o: Observed, encodes: seq<Comp> -> bool, faults: Faults): Round {
    Round(true, Some(SourceOf(x).StateAt(0)), FetchEvents(x.oldToken, o, encodes), Done, faults, [x.edited], [x.edited, x.other])
  }

  /** Of the two resources the fetch asks for the first only, and finds it with this summary. */
  predicate ShowsOne(x: Scene, o: Observed, summary: string) {
    FetchedHrefs(x.oldToken, o) == [x.editedHref] && o.body(x.editedHref) == Decoded([EventComp(x, x.edited, summary)])
  }

  lemma OneIsFetched(x: Scene, o: Observed, summary: string, encodes: seq<Comp> -> bool)
    requires ShowsOne(x, o, summary) && encodes([EventComp(x, x.edited, summary)])
    ensures Fetchable(x.oldToken, o) == [EventComp(x, x.edited, summary)]
    ensures var f := FetchEvents(x.oldToken, o, encodes); f.Some? && f.value.feed == Some([EventComp(x, x.edited, summary)])
  {
    var e := EventComp(x, x.edited, summary);
    var bodies := BodiesOf(FetchedHrefs(x.oldToken, o), o);
    assert bodies == [Decoded([e])];
    assert bodies[1..] == [] && [e][1..] == [];
    assert EventsIn([e]) == [e] && Candidates(bodies) == [e];
    assert FirstWins([e], {}) == [e];
  }

  lemma YieldsItself(x: Scene, uid: string, summary: string, encode: Comp -> Option<string>)
    requires Fitting(x) && Carries(uid, x.t.prefix) && encode(EventComp(x, uid, summary)).Some?
    ensures EventOf(EventComp(x, uid, summary), ConnectionOf(x).trs, encode) == Some(Content(uid, encode(EventComp(x, uid, summary)).value))
  {
    var c := EventComp(x, uid, summary);
    assert ConnectionOf(x).trs[1..] == [];
    assert Apply(ConnectionOf(x).trs, c.props) == Some(c.props);
  }

  lemma PlanIs(x: Scene, o: Observed, summary: string, encodes: seq<Comp> -> bool, faults: Faults, encode: Comp -> Option<string>)
    requires Fitting(x) && ShowsOne(x, o, summary) && Writable(x, summary, encodes, encode)
    ensures TurnOf(x, o, encodes, faults).fetch.Some? && TurnOf(x, o, encodes, faults).fetch.value.feed.Some?
    ensures PlanFor(ConnectionOf(x), TurnOf(x, o, encodes, faults), encode) ==
            Plan(x.t, map[x.edited := Content(x.edited, encode(EventComp(x, x.edited, summary)).value)], faults)
  {
    OneIsFetched(x, o, summary, encodes);
    YieldsItself(x, x.edited, summary, encode);
    var feed, trs := [EventComp(x, x.edited, summary)], ConnectionOf(x).trs;
    var e := EventOf(feed[0], trs, encode).value;
    assert feed[..|feed| - 1] == [];
    assert ParseEvents([], trs, encode) == map[];
    assert ParseEvents(feed, trs, encode) == map[x.edited := e];
  }

  lemma {:induction false} ActiveInStart(x: Scene, first: Content, second: Content, u: string)
    requires Fitting(x)
    ensures u in Active(StartOf(x, first, second).w, x.t) <==> u in {x.edited, x.other}
  {
    var w := StartOf(x, first, second).w;
    CarriedIsSelected(x.edited, x.t.prefix);
    CarriedIsSelected(x.other, x.t.prefix);
    ActiveIs(w, x.t, u);
    assert Key(u, x.t.name) in w.rows <==> u in {x.edited, x.other};
  }

  lemma {:induction false} BothListed(x: Scene, first: Content, second: Content, p: Plan)
    requires Fitting(x) && p.t == x.t && p.faults.listing == Rows({})
    ensures ListedBy(StartOf(x, first, second).w, p).Keys == {x.edited, x.other}
    ensures x.other in Active(StartOf(x, first, second).w, x.t)
  {
    var w := StartOf(x, first, second).w;
    forall u ensures u in ListedBy(w, p) <==> u in {x.edited, x.other} {
      ActiveInStart(x, first, second, u);
      ListedIs(w, p, u);
    }
    ActiveInStart(x, first, second, x.other);
  }

  lemma StartIsProper(x: Scene, first: Content, second: Content)
    requires Fitting(x)
    ensures ProperRows(StartOf(x, first, second).w.rows, x.t)
  {
    assert x.edited != "" && x.other != "";
  }

  lemma RunSucceeds(x: Scene, first: Content, second: Content, p: Plan)
    requires Fitting(x) && first.uid == x.edited && second.uid == x.other && p.t == x.t && AllGood(p.faults)
    requires p.events.Keys == {x.edited} && p.events[x.edited].uid == x.edited
    ensures Walks(StartOf(x, first, second).w, p, [x.edited], [x.edited, x.other])
    ensures Reconcile.SyncDestination(StartOf(x, first, second).w, p, [x.edited], [x.edited, x.other]).ok
    ensures Missed(StartOf(x, first, second).w, p) == {}
  {
    var w := StartOf(x, first, second).w;
    BothListed(x, first, second, p);
    StartIsProper(x, first, second);
    forall u <- Due(w, p) ensures !Expected(w, p, u).1.Fatal() {
      assert p.faults.event(u) == GOOD && p.faults.stale(u) == GOOD;
    }
    SuccessIs(w, p, [x.edited], [x.edited, x.other]);
    forall u ensures u !in Missed(w, p) {
      assert p.faults.stale(u) == GOOD;
    }
  }

  lemma TurnReaches(x: Scene, o: Observed, summary: string, first: Content, second: Content, encodes: seq<Comp> -> bool, faults: Faults)
    requires Fitting(x) && ShowsOne(x, o, summary) && encodes([EventComp(x, x.edited, summary)])
    ensures ReachesDestination(StartOf(x, first, second), ConnectionOf(x), TurnOf(x, o, encodes, faults))
  {
    OneIsFetched(x, o, summary, encodes);
    assert HasChanged(SourceOf(x).StateAt(0), CalendarState("", x.savedToken, ""));
  }

  lemma {:induction false} TurnSucceeds(x: Scene, o: Observed, summary: string, first: Content, second: Content,
                                        encodes: seq<Comp> -> bool, faults: Faults, encode: Comp -> Option<string>)
    requires Fitting(x) && ShowsOne(x, o, summary) && first.uid == x.edited && second.uid == x.other && AllGood(faults)
    requires Writable(x, summary, encodes, encode)
    ensures var (s, c, r) := (StartOf(x, first, second), ConnectionOf(x), TurnOf(x, o, encodes, faults));
            && Succeeds(s, c, r, encode, x.oldToken, o, encodes)
            && Missed(s.w, PlanFor(c, r, encode)) == {} && x.other in Active(s.w, x.t)
  {
    var (s, c, r) := (StartOf(x, first, second), ConnectionOf(x), TurnOf(x, o, encodes, faults));
    TurnReaches(x, o, summary, first, second, encodes, faults);
    PlanIs(x, o, summary, encodes, faults, encode);
    RunSucceeds(x, first, second, PlanFor(c, r, encode));
    StartIsProper(x, first, second);
    BothListed(x, first, second, PlanFor(c, r, encode));
  }

  /** The turn marks the other event deleted. */
  lemma {:induction false} OtherIsDropped(x: Scene, o: Observed, summary: string, first: Content, second: Content,
                                          encodes: seq<Comp> -> bool, faults: Faults, encode: Comp -> Option<string>)
    requires Fitting(x) && ShowsOne(x, o, summary) && first.uid == x.edited && second.uid == x.other && AllGood(faults)
    requires Writable(x, summary, encodes, encode)
    ensures var (s, c, r) := (StartOf(x, first, second), ConnectionOf(x), TurnOf(x, o, encodes, faults));
            && Succeeds(s, c, r, encode, x.oldToken, o, encodes)
            && x.other in Active(s.w, x.t) && x.other !in Active(SyncConnection(s, c, r, encode).s.w, x.t)
  {
    var (s, c, r) := (StartOf(x, first, second), ConnectionOf(x), TurnOf(x, o, encodes, faults));
    TurnSucceeds(x, o, summary, first, second, encodes, faults, encode);
    OneIsFetched(x, o, summary, encodes);
    YieldsItself(x, x.edited, summary, encode);
    forall d ensures !(Foremost(Fetchable(x.oldToken, o), d) && Yields(c, encode, d, x.other)) {
      FirstWinsForemost(Fetchable(x.oldToken, o), {}, d);
    }
    DroppedIs(s, c, r, encode, x.oldToken, o, encodes, x.other);
  }

  lemma {:induction false} OtherIsHeld(x: Scene, summary: string, encode: Comp -> Option<string>)
    requires Fitting(x) && encode(EventComp(x, x.other, x.before)).Some?
    ensures YieldedBy(Version(x, summary), ConnectionOf(x), encode, x.other)
  {
    var e := EventComp(x, x.other, x.before);
    YieldsItself(x, x.other, x.before, encode);
    assert e in EventsAt(Version(x, summary), x.otherHref);
    assert Holds(Version(x, summary), e) && Yields(ConnectionOf(x), encode, e, x.other);
  }

  // ---------------------------------------------------------------- an edit between the probe and the REPORT

  function EditSeen(x: Scene): Observed {
    var both := [x.editedHref, x.otherHref];
    Observed([x.editedHref], x.newToken, both, both, h => BodyAt(Version(x, x.after), h), Some(SourceOf(x).StateAt(1)))
  }

  function AfterEdit(): Moments {
    Moments(1, 1, 1, _ => 1, 1)
  }

  lemma EditIsSeen(x: Scene)
    requires Fitting(x)
    ensures Sees(SourceOf(x), 0, AfterEdit(), EditSeen(x)) && WholeListings(SourceOf(x), 0, AfterEdit(), EditSeen(x))
    ensures ShowsOne(x, EditSeen(x), x.after)
  {
    var v, w := Version(x, x.before), Version(x, x.after);
    assert SourceOf(x).history[0] == v && SourceOf(x).history[1] == w;
    assert v[x.otherHref] == w[x.otherHref];
  }

  lemma {:induction false} EditIsSaved(x: Scene, encodes: seq<Comp> -> bool)
    requires Fitting(x) && encodes([EventComp(x, x.edited, x.after)])
    ensures var f := FetchEvents(x.oldToken, EditSeen(x), encodes);
            f.Some? && f.value.state == SourceOf(x).StateAt(1) && HasTokens(f.value.state) && !HasChanged(SourceOf(x).StateAt(1), f.value.state)
  {
    EditIsSeen(x);
    OneIsFetched(x, EditSeen(x), x.after, encodes);
    assert SourceOf(x).StateAt(1) == CalendarState("", x.newToken, "");
  }

  /** Editing one event gets the other one marked deleted. Nothing fails, the listings are full and the turn reports success; the
      source still holds the other event and the pipeline still lets it through; and the next turn finds nothing to do. */
  lemma {:induction false} LiveEventDeleted(x: Scene, first: Content, second: Content, encodes: seq<Comp> -> bool, faults: Faults,
                                            encode: Comp -> Option<string>, q: Round)
    requires Fitting(x) && first.uid == x.edited && second.uid == x.other && AllGood(faults) && Writable(x, x.after, encodes, encode)
    requires q.stateReadable && q.probe == Some(SourceOf(x).StateAt(1))
    ensures Sees(SourceOf(x), 0, AfterEdit(), EditSeen(x)) && WholeListings(SourceOf(x), 0, AfterEdit(), EditSeen(x))
    ensures var (s, c, r) := (StartOf(x, first, second), ConnectionOf(x), TurnOf(x, EditSeen(x), encodes, faults));
            && ValidRound(s, c, r, encode) && SyncConnection(s, c, r, encode).outcome == Synced
            && var s1 := SyncConnection(s, c, r, encode).s;
            && x.other in Active(s.w, x.t) && x.other !in Active(s1.w, x.t)
            && YieldedBy(SourceOf(x).history[1], c, encode, x.other)
            && ValidRound(s1, c, q, encode) && SyncConnection(s1, c, q, encode) == Visit(s1, NotChanged, [])
  {
    var (s, c, r) := (StartOf(x, first, second), ConnectionOf(x), TurnOf(x, EditSeen(x), encodes, faults));
    EditIsSeen(x);
    OtherIsDropped(x, EditSeen(x), x.after, first, second, encodes, faults, encode);
    OtherIsHeld(x, x.after, encode);
    EditIsSaved(x, encodes);
    SavedStateBlocks(s, c, r, SyncConnection(s, c, r, encode).s, c, q, encode);
  }

  // ---------------------------------------------------------------- a listing that breaks off

  function ResponseTo(href: string): Multistatus.Xml {
    Multistatus.Elem("response", [Multistatus.Elem("href", [Multistatus.Text(href)])])
  }

  function ListingOf(x: Scene): seq<Multistatus.Xml> {
    [Multistatus.Elem("multistatus", [ResponseTo(x.editedHref), ResponseTo(x.otherHref)])]
  }

  /** The REPORT names nothing, as nothing changed; the listing breaks off after its first response. */
  function CutShort(x: Scene): Answers {
    Answers([], 0, [], 0, ListingOf(x), 6)
  }

  function CutSeen(x: Scene): Observed {
    Observed([], x.oldToken, [], [x.editedHref], h => BodyAt(Version(x, x.before), h), Some(SourceOf(x).StateAt(0)))
  }

  function Still(): Moments {
    Moments(0, 0, 0, _ => 0, 0)
  }

  predicate Trimmed(href: string) {
    href != "" && TrimSpace(href) == href
  }

  lemma {:induction false} FirstResponseCloses(x: Scene)
    requires Trimmed(x.editedHref)
    ensures Multistatus.Document(ListingOf(x)) && 6 <= |Multistatus.PrintAll(ListingOf(x))|
    ensures Multistatus.ClosedWithin(ListingOf(x), 6, false) == [x.editedHref]
  {
    var a, b := ResponseTo(x.editedHref), ResponseTo(x.otherHref);
    PrintsFive(x.editedHref);
    PrintsFive(x.otherHref);
    assert [a, b][1..] == [b] && [b][1..] == [] && ListingOf(x)[1..] == [];
    assert Multistatus.PrintAll([b]) == Multistatus.Print(b) + [];
    assert Multistatus.PrintAll([a, b]) == Multistatus.Print(a) + Multistatus.PrintAll([b]);
    assert Multistatus.PrintAll(ListingOf(x)) == Multistatus.Print(ListingOf(x)[0]) + [];
    assert Multistatus.ClosedWithin([b], 0, false) == [];
    assert Multistatus.ClosedWithin([a, b], 5, false) == [x.editedHref] + [];
  }

  lemma {:induction false} PrintsFive(href: string)
    ensures |Multistatus.Print(ResponseTo(href))| == 5
    ensures Trimmed(href) ==> Multistatus.HrefsIn(ResponseTo(href), false) == [href]
    ensures Multistatus.Document([ResponseTo(href)])
  {
    var text := [Multistatus.Text(href)];
    var field := [Multistatus.Elem("href", text)];
    assert text[1..] == [] && field[1..] == [] && [ResponseTo(href)][1..] == [];
    assert Multistatus.PrintAll(text) == Multistatus.Print(text[0]) + [];
    assert Multistatus.PrintAll(field) == Multistatus.Print(field[0]) + [];
    assert href + "" == href;
    assert Multistatus.Without(text, "response") && Multistatus.Without(field, "response");
    assert Multistatus.CutAt(text, "href") == Multistatus.Cut(href, false, []);
    assert Multistatus.FieldsAfter(Multistatus.NO_FIELDS, field) == Multistatus.Fields(TrimSpace(href), "");
  }

  lemma {:induction false} CutIsSeen(x: Scene)
    requires Fitting(x) && Trimmed(x.editedHref)
    ensures Sees(SourceOf(x), 0, Still(), CutSeen(x)) && Reads(CutSeen(x), CutShort(x)) && ShowsOne(x, CutSeen(x), x.before)
  {
    FirstResponseCloses(x);
    Multistatus.ParsesTruncated([], ListingOf(x), 6, false);
    assert [] + [x.editedHref] == [x.editedHref];
    assert Multistatus.PrintAll(ListingOf(x))[..6] == Multistatus.PrintAll(ListingOf(x))[0..6];
  }

  /** A listing that breaks off gets a live event marked deleted, though the source does not move at all. */
  lemma {:induction false} BrokenListingDeletes(x: Scene, first: Content, second: Content, encodes: seq<Comp> -> bool, faults: Faults,
                                                encode: Comp -> Option<string>)
    requires Fitting(x) && Trimmed(x.editedHref) && first.uid == x.edited && second.uid == x.other && AllGood(faults)
    requires Writable(x, x.before, encodes, encode)
    ensures Sees(SourceOf(x), 0, Still(), CutSeen(x)) && Reads(CutSeen(x), CutShort(x))
    ensures var (s, c, r) := (StartOf(x, first, second), ConnectionOf(x), TurnOf(x, CutSeen(x), encodes, faults));
            && ValidRound(s, c, r, encode) && SyncConnection(s, c, r, encode).outcome == Synced
            && x.other in Active(s.w, x.t) && x.other !in Active(SyncConnection(s, c, r, encode).s.w, x.t)
            && YieldedBy(SourceOf(x).history[0], c, encode, x.other)
  {
    CutIsSeen(x);
    OtherIsDropped(x, CutSeen(x), x.before, first, second, encodes, faults, encode);
    OtherIsHeld(x, x.before, encode);
  }

  // ---------------------------------------------------------------- an override

  /** One resource with a recurring event and an override of one of its occurrences. */
  function Recurring(h: string, master: Comp, occurrence: Comp, token: string): Source {
    Source([map[h := Some([master, occurrence])]], _ => "", _ => token)
  }

  function RecurringSeen(h: string, master: Comp, occurrence: Comp, token: string): Observed {
    Observed([], token, [h], [h], g => BodyAt(map[h := Some([master, occurrence])], g), Some(CalendarState("", token, "")))
  }

  /** The override is not fetched, though nothing fails and nothing moves, and the next probe calls the source unchanged. */
  lemma {:induction false} OverrideNeverFetched(h: string, master: Comp, occurrence: Comp, token: string, encodes: seq<Comp> -> bool)
    requires IsEvent(master) && IsEvent(occurrence) && Uid(master) == Uid(occurrence) && master != occurrence
    requires token != "" && encodes([master])
    ensures var (src, o) := (Recurring(h, master, occurrence, token), RecurringSeen(h, master, occurrence, token));
            && Sees(src, 0, Still(), o) && WholeListings(src, 0, Still(), o) && Holds(src.history[0], occurrence)
            && var f := FetchEvents(token, o, encodes);
            f.Some? && f.value.feed == Some([master]) && !UpToDate(f.value, src.history[0]) && !HasChanged(src.StateAt(0), f.value.state)
  {
    var (src, o) := (Recurring(h, master, occurrence, token), RecurringSeen(h, master, occurrence, token));
    var both, bodies := [master, occurrence], BodiesOf(FetchedHrefs(token, o), o);
    assert src.history[0] == map[h := Some(both)];
    assert bodies == [Decoded(both)] && bodies[1..] == [] && both[1..] == [occurrence] && [occurrence][1..] == [];
    assert EventsIn([occurrence]) == [occurrence];
    assert EventsIn(both) == [master] + [occurrence];
    assert Candidates(bodies) == both;
    assert {} + {Uid(master)} == {Uid(master)} && FirstWins([occurrence], {Uid(master)}) == [];
    assert FirstWins(both, {}) == [master];
    assert occurrence in EventsAt(src.history[0], h);
    assert Holds(src.history[0], occurrence);
    assert occurrence !in [master];
  }

  // ---------------------------------------------------------------- a source that another connection writes

  lemma OwnIsMember(url: string, base: string, u: string)
    requires Collection(url) == Collection(base)
    ensures Member(url, HrefFor(base, u))
  {
    var h, n := HrefFor(base, u), |Collection(base)|;
    EscapeHasNoSlash(u);
    assert h == Collection(base) + (PathEscape(u) + ".ics");
    assert h[n..] == PathEscape(u) + ".ics";
  }

  /** Two connections in a chain: the first writes the collection that the second reads. All is empty, and the state saved for the
      second source is the one it shows. */
  ghost predicate Chained(a: Connection, b: Connection, oa: Outlook, ob: Outlook, event: Comp, shown: CalendarState, encode: Comp -> Option<string>) {
    && a.known && b.known && a.url != b.url && a.t.name != b.t.name
    && Collection(a.t.base) == Collection(b.url) && Collection(a.t.base) != Collection(b.t.base)
    && Walking(oa) && Walking(ob) && AllGood(oa.faults) && oa.stateReadable && ob.stateReadable
    && oa.probe(map[]).Some? && HasTokens(oa.probe(map[]).value)
    && oa.fetch(map[]).Some? && oa.fetch(map[]).value.feed == Some([event]) && EventOf(event, a.trs, encode).Some?
    && HasTokens(shown) && ob.probe(map[]) == Some(shown)
    && forall held :: held != map[] ==> ob.probe(held).Some? && HasChanged(ob.probe(held).value, shown)
  }

  function ChainStart(b: Connection, shown: CalendarState): System {
    System(World(map[], map[]), map[b.url := shown])
  }

  lemma {:induction false} FirstLinkRuns(a: Connection, b: Connection, oa: Outlook, ob: Outlook, event: Comp, shown: CalendarState,
                                         encode: Comp -> Option<string>)
    requires Chained(a, b, oa, ob, event, shown, encode)
    ensures var s := ChainStart(b, shown);
            var r := RoundIn(s, a, oa, encode);
            && ValidRound(s, a, r, encode) && ReachesDestination(s, a, r) && r.faults == oa.faults
            && r.fetch.value.feed == Some([event]) && Get(SyncConnection(s, a, r, encode).s.states, b.url) == Some(shown)
  {
    var s := ChainStart(b, shown);
    assert SourceView(s.w.remote, a.url) == map[];
    RoundInIsValid(s, a, oa, encode);
    assert HasChanged(oa.probe(map[]).value, NO_STATE);
  }

  /** An undisturbed run over one event leaves its resource. */
  lemma {:induction false} OneArrives(p: Plan, order: seq<string>, staleOrder: seq<string>, u: string)
    requires ProperEvents(p.events) && AllGood(p.faults) && u in p.events && Walks(World(map[], map[]), p, order, staleOrder)
    ensures HrefFor(p.t.base, u) in Reconcile.SyncDestination(World(map[], map[]), p, order, staleOrder).world.remote
  {
    var w := World(map[], map[]);
    RunLeaves(w, p, order, staleOrder, u);
    assert CellAt(w, p.t, u) == Cell(None, None);
    assert CellAt(Reconcile.SyncDestination(w, p, order, staleOrder).world, p.t, u).res.Some?;
  }

  lemma {:induction false} FirstLinkWrites(a: Connection, b: Connection, oa: Outlook, ob: Outlook, event: Comp, shown: CalendarState,
                                           encode: Comp -> Option<string>)
    requires Chained(a, b, oa, ob, event, shown, encode)
    ensures var s := ChainStart(b, shown);
            var r := RoundIn(s, a, oa, encode);
            && ValidRound(s, a, r, encode)
            && var s1 := SyncConnection(s, a, r, encode).s;
            SourceView(s1.w.remote, b.url) != map[] && Get(s1.states, b.url) == Some(shown)
  {
    var s := ChainStart(b, shown);
    var r := RoundIn(s, a, oa, encode);
    FirstLinkRuns(a, b, oa, ob, event, shown, encode);
    var e, p := EventOf(event, a.trs, encode).value, PlanFor(a, r, encode);
    YieldsEvent([event], a.trs, encode, event);
    ParsedIsProper([event], a.trs, encode);
    OneArrives(p, r.order, r.staleOrder, e.uid);
    OwnIsMember(b.url, a.t.base, e.uid);
    assert HrefFor(a.t.base, e.uid) in SourceView(SyncConnection(s, a, r, encode).s.w.remote, b.url);
  }

  lemma {:induction false} SecondAlone(a: Connection, b: Connection, oa: Outlook, ob: Outlook, event: Comp, shown: CalendarState,
                                       encode: Comp -> Option<string>)
    requires Chained(a, b, oa, ob, event, shown, encode)
    ensures var s := ChainStart(b, shown);
            var r := RoundIn(s, b, ob, encode);
            ValidRound(s, b, r, encode) && SyncConnection(s, b, r, encode) == Visit(s, NotChanged, [])
  {
    var s := ChainStart(b, shown);
    assert SourceView(s.w.remote, b.url) == map[];
    RoundInIsValid(s, b, ob, encode);
    assert !HasChanged(RoundIn(s, b, ob, encode).probe.value, shown);
  }

  lemma {:induction false} SecondChanged(s: System, a: Connection, b: Connection, oa: Outlook, ob: Outlook, event: Comp, shown: CalendarState,
                                         encode: Comp -> Option<string>)
    requires Chained(a, b, oa, ob, event, shown, encode)
    requires SourceView(s.w.remote, b.url) != map[] && Get(s.states, b.url) == Some(shown)
    ensures var r := RoundIn(s, b, ob, encode);
            ValidRound(s, b, r, encode) && SyncConnection(s, b, r, encode).outcome != NotChanged
  {
    var r := RoundIn(s, b, ob, encode);
    RoundInIsValid(s, b, ob, encode);
    assert r.probe.Some? && HasChanged(r.probe.value, shown);
  }

  /** The second turn of two. */
  lemma {:induction false} SecondTurn(s: System, a: Connection, b: Connection, oa: Outlook, ob: Outlook, encode: Comp -> Option<string>)
    requires AllWalking([oa, ob]) && ValidRound(s, a, RoundIn(s, a, oa, encode), encode)
    ensures var s1, rs := SyncConnection(s, a, RoundIn(s, a, oa, encode), encode).s, RoundsIn(s, [a, b], [oa, ob], encode);
            && ValidRounds(s, [a, b], rs, encode) && ValidRound(s1, b, RoundIn(s1, b, ob, encode), encode)
            && SyncAll(s, [a, b], rs, encode)[1] == SyncConnection(s1, b, RoundIn(s1, b, ob, encode), encode)
  {
    var s1, rs := SyncConnection(s, a, RoundIn(s, a, oa, encode), encode).s, RoundsIn(s, [a, b], [oa, ob], encode);
    assert ob in [oa, ob];
    RoundsInAreValid(s, [a, b], [oa, ob], encode);
    RoundInIsValid(s1, b, ob, encode);
    assert [a, b][1..] == [b] && [oa, ob][1..] == [ob];
    assert rs[1..] == RoundsIn(s1, [b], [ob], encode);
    assert rs[1] == RoundIn(s1, b, ob, encode);
    AfterRest(s, [a, b], rs, encode);
  }

  /** Independence needs more than different destinations and sources. Alone, the second connection of a chain finds its source
      unchanged; after the first one's turn in the same `Sync` it does not. */
  lemma {:induction false} ChainInterferes(a: Connection, b: Connection, oa: Outlook, ob: Outlook, event: Comp, shown: CalendarState,
                                           encode: Comp -> Option<string>)
    requires Chained(a, b, oa, ob, event, shown, encode)
    ensures AllWalking([oa, ob])
    ensures var s := ChainStart(b, shown);
            var alone, rs := RoundIn(s, b, ob, encode), RoundsIn(s, [a, b], [oa, ob], encode);
            && ValidRound(s, b, alone, encode) && SyncConnection(s, b, alone, encode) == Visit(s, NotChanged, [])
            && ValidRounds(s, [a, b], rs, encode) && SyncAll(s, [a, b], rs, encode)[1].outcome != NotChanged
  {
    var s := ChainStart(b, shown);
    SecondAlone(a, b, oa, ob, event, shown, encode);
    FirstLinkWrites(a, b, oa, ob, event, shown, encode);
    SecondTurn(s, a, b, oa, ob, encode);
    SecondChanged(SyncConnection(s, a, RoundIn(s, a, oa, encode), encode).s, a, b, oa, ob, event, shown, encode);
  }
}
