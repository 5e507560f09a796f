/** Change detection, fetching and reconciliation together: which deletions are genuine, whatever the
    requests of the fetch see, and what a source that moves at the wrong moment brings about. */
module Races {
  import opened Records
  import opened Reconcile
  import opened Convergence
  import opened Pipeline
  import opened Feed
  import opened SyncLoop
  import opened Connections
  import opened ChangeDetection
  import Multistatus

  lemma {:induction false} YieldsEvent(feed: seq<Comp>, trs: seq<Transformer>, encode: Comp -> Option<string>, c: Comp)
    requires c in feed && EventOf(c, trs, encode).Some?
    ensures EventOf(c, trs, encode).value.uid in ParseEvents(feed, trs, encode)
  {
    var n := |feed| - 1;
    if c != feed[n] {
      assert c in feed[..n];
      YieldsEvent(feed[..n], trs, encode, c);
    }
  }

  lemma {:induction false} EventHasSource(feed: seq<Comp>, trs: seq<Transformer>, encode: Comp -> Option<string>, u: string)
    requires u in ParseEvents(feed, trs, encode)
    ensures ParseEvents(feed, trs, encode)[u].uid == u
    ensures exists c <- feed :: EventOf(c, trs, encode) == Some(ParseEvents(feed, trs, encode)[u])
  {
    ParsedIsSupplied(feed, trs, encode, u);
    var i: nat :| Supplies(feed, trs, encode, i, ParseEvents(feed, trs, encode)[u]);
    assert feed[i] in feed;
  }

  /** The connection's pipeline turns the component into the event of this UID. */
  predicate Yields(c: Connection, encode: Comp -> Option<string>, comp: Comp, u: string) {
    var e := EventOf(comp, c.trs, encode);
    e.Some? && e.value.uid == u
  }

  // ---------------------------------------------------------------- what a turn deletes

  /** Some event that survives merging, the first of its UID, becomes the event of this UID. */
  ghost predicate Supplied(cs: seq<Comp>, c: Connection, encode: Comp -> Option<string>, u: string) {
    exists d :: Foremost(cs, d) && Yields(c, encode, d, u)
  }

  /** A turn that fetched what `o` saw and reports success. */
  ghost predicate Succeeds(s: System, c: Connection, r: Round, encode: Comp -> Option<string>, token: string, o: Observed, encodes: seq<Comp> -> bool) {
    && r.fetch == FetchEvents(token, o, encodes)
    && ProperRows(s.w.rows, c.t) && ReachesDestination(s, c, r) && ValidRound(s, c, r, encode)
    && SyncConnection(s, c, r, encode).outcome == Synced
  }

  lemma {:induction false} KeptIs(s: System, c: Connection, r: Round, encode: Comp -> Option<string>, u: string)
    requires ProperRows(s.w.rows, c.t) && ReachesDestination(s, c, r) && ValidRound(s, c, r, encode)
    requires SyncConnection(s, c, r, encode).outcome == Synced && u in Active(s.w, c.t)
    ensures r.faults.listing.Rows?
    ensures u in Active(SyncConnection(s, c, r, encode).s.w, c.t) <==>
            u in PlanFor(c, r, encode).events || u in Missed(s.w, PlanFor(c, r, encode))
  {
    ParsedIsProper(r.fetch.value.feed.value, c.trs, encode);
    Converges(s.w, PlanFor(c, r, encode), r.order, r.staleOrder);
    ActiveIs(s.w, c.t, u);
  }

  lemma {:induction false} ParsedIsYielded(feed: seq<Comp>, c: Connection, encode: Comp -> Option<string>, u: string)
    ensures u in ParseEvents(feed, c.trs, encode) <==> exists d <- feed :: Yields(c, encode, d, u)
  {
    if u in ParseEvents(feed, c.trs, encode) {
      EventHasSource(feed, c.trs, encode, u);
    }
    if d: Comp :| d in feed && Yields(c, encode, d, u) {
      YieldsEvent(feed, c.trs, encode, d);
    }
  }

  lemma {:induction false} SuppliedIs(token: string, o: Observed, encodes: seq<Comp> -> bool, c: Connection, encode: Comp -> Option<string>, u: string)
    requires FetchEvents(token, o, encodes).Some?
    ensures u in ParseEvents(FetchEvents(token, o, encodes).value.feed.value, c.trs, encode) <==> Supplied(Fetchable(token, o), c, encode, u)
  {
    var feed, cs := FetchEvents(token, o, encodes).value.feed.value, Fetchable(token, o);
    ParsedIsYielded(feed, c, encode, u);
    forall d ensures d in feed <==> Foremost(cs, d) {
      FirstWinsForemost(cs, {}, d);
    }
  }

  lemma {:induction false} PlannedIs(c: Connection, r: Round, encode: Comp -> Option<string>, token: string, o: Observed,
                                     encodes: seq<Comp> -> bool, u: string)
    requires r.fetch == FetchEvents(token, o, encodes) && r.fetch.Some? && r.fetch.value.feed.Some?
    ensures u in PlanFor(c, r, encode).events <==> Supplied(Fetchable(token, o), c, encode, u)
  {
    SuppliedIs(token, o, encodes, c, encode, u);
  }

  /** Exactly what a successful turn drops. Whatever its requests saw, however much of the source its listings named: an active
      mapping is marked deleted if and only if no event that survives the merge yields its UID and the run did not miss it. */
  lemma {:induction false} DroppedIs(s: System, c: Connection, r: Round, encode: Comp -> Option<string>,
                                     token: string, o: Observed, encodes: seq<Comp> -> bool, u: string)
    requires Succeeds(s, c, r, encode, token, o, encodes) && u in Active(s.w, c.t)
    ensures r.faults.listing.Rows?
    ensures u !in Active(SyncConnection(s, c, r, encode).s.w, c.t) <==>
            !Supplied(Fetchable(token, o), c, encode, u) && u !in Missed(s.w, PlanFor(c, r, encode))
  {
    PlannedIs(c, r, encode, token, o, encodes, u);
    KeptIs(s, c, r, encode, u);
  }

  /** When no UID occurs twice, any event in a fetched resource counts. */
  lemma {:induction false} DistinctSupply(token: string, o: Observed, c: Connection, encode: Comp -> Option<string>, u: string)
    requires DistinctUids(Fetchable(token, o))
    ensures Supplied(Fetchable(token, o), c, encode, u) <==> exists d :: Gathered(o, FetchedHrefs(token, o), d) && Yields(c, encode, d, u)
  {
    var cs := Fetchable(token, o);
    GatheredAre(o, FetchedHrefs(token, o));
    FirstWinsAll(cs, {});
    forall d ensures Foremost(cs, d) <==> Gathered(o, FetchedHrefs(token, o), d) {
      FirstWinsForemost(cs, {}, d);
    }
  }

  /** The pipeline turns some event that the collection holds into the event of this UID. */
  ghost predicate YieldedBy(held: Snapshot, c: Connection, encode: Comp -> Option<string>, u: string) {
    exists d :: Holds(held, d) && Yields(c, encode, d, u)
  }

  /** Whatever is marked deleted is not held, as far as the pipeline lets it through. */
  ghost predicate Genuine(before: World, after: World, held: Snapshot, c: Connection, encode: Comp -> Option<string>) {
    forall u <- Active(before, c.t) :: u !in Active(after, c.t) ==> !YieldedBy(held, c, encode, u)
  }

  /** Exactly when the deletions of a successful turn are genuine, measured against any version of the source: if every active UID
      that a held event yields is also yielded by an event that was fetched and survives the merge, or was missed. */
  lemma {:induction false} DeletionsAreGenuine(s: System, c: Connection, r: Round, encode: Comp -> Option<string>,
                                               token: string, o: Observed, encodes: seq<Comp> -> bool, held: Snapshot)
    requires Succeeds(s, c, r, encode, token, o, encodes)
    ensures r.faults.listing.Rows?
    ensures Genuine(s.w, SyncConnection(s, c, r, encode).s.w, held, c, encode) <==>
            forall u <- Active(s.w, c.t) :: YieldedBy(held, c, encode, u) ==>
              Supplied(Fetchable(token, o), c, encode, u) || u in Missed(s.w, PlanFor(c, r, encode))
  {
    forall u <- Active(s.w, c.t)
      ensures u !in Active(SyncConnection(s, c, r, encode).s.w, c.t) <==>
              !Supplied(Fetchable(token, o), c, encode, u) && u !in Missed(s.w, PlanFor(c, r, encode))
    {
      DroppedIs(s, c, r, encode, token, o, encodes, u);
    }
    SuccessHasListing(s, c, r, encode);
  }

  lemma SuccessHasListing(s: System, c: Connection, r: Round, encode: Comp -> Option<string>)
    requires ReachesDestination(s, c, r) && ValidRound(s, c, r, encode) && SyncConnection(s, c, r, encode).outcome == Synced
    ensures r.faults.listing.Rows?
  {
  }

  /** So they are when the source stands still, is listed in full and repeats no UID. */
  lemma {:induction false} StandingStill(src: Source, v: nat, at: Moments, s: System, c: Connection, r: Round, encode: Comp -> Option<string>,
                                         o: Observed, encodes: seq<Comp> -> bool)
    requires Sees(src, v, at, o) && WholeListings(src, v, at, o) && at.final == v
    requires Succeeds(s, c, r, encode, src.token(v), o, encodes) && DistinctUids(Fetchable(src.token(v), o))
    ensures Genuine(s.w, SyncConnection(s, c, r, encode).s.w, src.history[v], c, encode)
  {
    StableFetch(src, v, at, o, encodes);
    DeletionsAreGenuine(s, c, r, encode, src.token(v), o, encodes, src.history[v]);
    forall u <- Active(s.w, c.t) | YieldedBy(src.history[v], c, encode, u) ensures Supplied(Fetchable(src.token(v), o), c, encode, u) {
      DistinctSupply(src.token(v), o, c, encode, u);
    }
  }

  // ---------------------------------------------------------------- listings that break off

  /** The documents that answer the REPORT and the two listings, and the token at which the stream of each breaks off. */
  datatype Answers = Answers(report: seq<Multistatus.Xml>, reportCut: nat, list: seq<Multistatus.Xml>, listCut: nat,
                             relist: seq<Multistatus.Xml>, relistCut: nat)

  predicate ReadFrom(hrefs: seq<string>, doc: seq<Multistatus.Xml>, cut: nat, onlyExisting: bool) {
    && Multistatus.Document(doc) && cut <= |Multistatus.PrintAll(doc)|
    && hrefs == Multistatus.HrefsRead(Multistatus.PrintAll(doc)[..cut], onlyExisting)
  }

  predicate Reads(o: Observed, a: Answers) {
    && ReadFrom(o.reported, a.report, a.reportCut, true)
    && ReadFrom(o.listed, a.list, a.listCut, false) && ReadFrom(o.relisted, a.relist, a.relistCut, false)
  }

  /** The addresses in the responses that are closed before the stream breaks off. */
  function ClosedHrefs(token: string, a: Answers): seq<string> {
    var first := if token != "" then Multistatus.ClosedWithin(a.report, a.reportCut, true)
                 else Multistatus.ClosedWithin(a.list, a.listCut, false);
    if first == [] then Multistatus.ClosedWithin(a.relist, a.relistCut, false) else first
  }

  lemma ReadsClosed(hrefs: seq<string>, doc: seq<Multistatus.Xml>, cut: nat, onlyExisting: bool)
    requires ReadFrom(hrefs, doc, cut, onlyExisting)
    ensures hrefs == Multistatus.ClosedWithin(doc, cut, onlyExisting)
  {
    Multistatus.ParsesTruncated([], doc, cut, onlyExisting);
    assert [] + Multistatus.ClosedWithin(doc, cut, onlyExisting) == Multistatus.ClosedWithin(doc, cut, onlyExisting);
  }

  /** Of a REPORT read to its end the addresses of existing resources count, of a listing all addresses. */
  lemma {:induction false} WholeAnswers(o: Observed, a: Answers, report: seq<seq<Multistatus.Xml>>, list: seq<seq<Multistatus.Xml>>)
    requires Reads(o, a) && (forall body <- report + list :: Multistatus.PlainFields(body))
    requires a.report == Multistatus.Listing(report) && a.reportCut == |Multistatus.PrintAll(a.report)|
    requires a.list == Multistatus.Listing(list) && a.listCut == |Multistatus.PrintAll(a.list)|
    requires a.relist == Multistatus.Listing(list) && a.relistCut == |Multistatus.PrintAll(a.relist)|
    ensures o.reported == Multistatus.Contributions(report, true)
    ensures o.listed == Multistatus.Contributions(list, false) && o.relisted == Multistatus.Contributions(list, false)
  {
    forall body <- report ensures Multistatus.PlainFields(body) { assert body in report + list; }
    forall body <- list ensures Multistatus.PlainFields(body) { assert body in report + list; }
    Multistatus.ReadsContributions(report, true);
    Multistatus.ReadsContributions(list, false);
    var p, q := Multistatus.PrintAll(a.report), Multistatus.PrintAll(a.list);
    assert p[..|p|] == p && q[..|q|] == q;
  }

  /** The same from the very streams: wherever they break off, and whether or not the source moves, the deletions are genuine exactly
      if every active UID that a held event yields is yielded by an event in a resource whose response was closed before. */
  lemma {:induction false} BrokenListings(s: System, c: Connection, r: Round, encode: Comp -> Option<string>,
                                          token: string, o: Observed, encodes: seq<Comp> -> bool, held: Snapshot, a: Answers)
    requires Succeeds(s, c, r, encode, token, o, encodes) && Reads(o, a)
    ensures FetchedHrefs(token, o) == ClosedHrefs(token, a) && r.faults.listing.Rows?
    ensures Genuine(s.w, SyncConnection(s, c, r, encode).s.w, held, c, encode) <==>
            forall u <- Active(s.w, c.t) :: YieldedBy(held, c, encode, u) ==>
              Supplied(Candidates(BodiesOf(ClosedHrefs(token, a), o)), c, encode, u) || u in Missed(s.w, PlanFor(c, r, encode))
  {
    ReadsClosed(o.reported, a.report, a.reportCut, true);
    ReadsClosed(o.listed, a.list, a.listCut, false);
    ReadsClosed(o.relisted, a.relist, a.relistCut, false);
    DeletionsAreGenuine(s, c, r, encode, token, o, encodes, held);
  }

  // ---------------------------------------------------------------- and then the saved state

  /** What a turn drops stays dropped. Exactly the active mappings described above are marked deleted; and as long as the source
      shows no token that differs from the saved ones, later turns do nothing about it. */
  lemma {:induction false} RaceDeletes(s: System, c: Connection, r: Round, encode: Comp -> Option<string>,
                                       token: string, o: Observed, encodes: seq<Comp> -> bool, u: string, q: Round)
    requires Succeeds(s, c, r, encode, token, o, encodes) && u in Active(s.w, c.t)
    requires r.stateWrite.TakesEffect() && HasTokens(r.fetch.value.state)
    requires q.stateReadable && q.probe.Some? && !HasChanged(q.probe.value, r.fetch.value.state)
    ensures r.faults.listing.Rows?
    ensures var v1 := SyncConnection(s, c, r, encode);
            && (u !in Active(v1.s.w, c.t) <==>
                  !Supplied(Fetchable(token, o), c, encode, u) && u !in Missed(s.w, PlanFor(c, r, encode)))
            && ValidRound(v1.s, c, q, encode) && SyncConnection(v1.s, c, q, encode) == Visit(v1.s, NotChanged, [])
  {
    DroppedIs(s, c, r, encode, token, o, encodes, u);
    SavedStateBlocks(s, c, r, SyncConnection(s, c, r, encode).s, c, q, encode);
  }

  /** A change that comes after its resource was read and before the state is: the next turn is told that nothing changed, and what was
      fetched is what the source holds only as said above, so with one event for each address only if no such change came. */
  lemma {:induction false} LateChangeUnseen(src: Source, v: nat, at: Moments, o: Observed, token: string, encodes: seq<Comp> -> bool,
                                            uidOf: string -> string, s: System, c: Connection, r: Round, encode: Comp -> Option<string>, q: Round)
    requires Sees(src, v, at, o) && o.finalState.Some? && HasTokens(src.StateAt(at.final)) && r.fetch == FetchEvents(token, o, encodes)
    requires Fetches(s, c, r) && ValidRound(s, c, r, encode) && r.stateWrite.TakesEffect()
    requires c.known && q.stateReadable && q.probe == Some(src.StateAt(at.final))
    ensures var s1 := SyncConnection(s, c, r, encode).s;
            && ValidRound(s1, c, q, encode) && SyncConnection(s1, c, q, encode) == Visit(s1, NotChanged, [])
            && (UpToDate(r.fetch.value, src.history[at.final]) <==> FetchedAre(token, o, src.history[at.final]))
            && (OneEach(src, uidOf) ==>
                  (UpToDate(r.fetch.value, src.history[at.final]) <==> SeenAsAt(src, at, FetchedHrefs(token, o), at.final)))
  {
    UpToDateIs(token, o, encodes, src.history[at.final]);
    if OneEach(src, uidOf) {
      UpToDateByAddress(src, v, at, o, token, encodes, uidOf, at.final);
    }
    SavedStateBlocks(s, c, r, SyncConnection(s, c, r, encode).s, c, q, encode);
  }
}
