/** From what a source holds to what its destination shows. */
module EndToEnd {
  import opened Text
  import opened Records
  import opened Reconcile
  import opened Pointwise
  import opened Convergence
  import opened Pipeline
  import opened Feed
  import opened SyncLoop
  import opened Connections
  import opened ChangeDetection
  import opened Races
  import opened Restore

  /** Some event that the collection holds comes out of the pipeline as this one. */
  ghost predicate Sends(s: Snapshot, c: Connection, encode: Comp -> Option<string>, e: Content) {
    exists d :: Holds(s, d) && EventOf(d, c.trs, encode) == Some(e)
  }

  /** Under the prefix the destination has what the collection sends, nothing missing, outdated or left over. */
  ghost predicate Reflects(w: World, c: Connection, encode: Comp -> Option<string>, s: Snapshot) {
    forall u, e: Content :: Selected(u, c.t.prefix) ==> (CellAt(w, c.t, u).res == Some(e) <==> e.uid == u && Sends(s, c, encode, e))
  }

  /** No two different events come out of the pipeline under one UID. */
  ghost predicate SendsOnce(s: Snapshot, c: Connection, encode: Comp -> Option<string>) {
    forall e: Content, g: Content :: Sends(s, c, encode, e) && Sends(s, c, encode, g) && e.uid == g.uid ==> e == g
  }

  /** Merging leaves a component for every event that is sent. */
  ghost predicate MergeSpares(token: string, o: Observed, s: Snapshot, c: Connection, encode: Comp -> Option<string>) {
    forall e: Content :: Sends(s, c, encode, e) ==>
      exists d :: Foremost(Fetchable(token, o), d) && EventOf(d, c.trs, encode) == Some(e)
  }

  /** The parsed events are those that are sent. */
  ghost predicate Conveys(events: map<string, Content>, c: Connection, encode: Comp -> Option<string>, s: Snapshot) {
    forall u, e: Content :: Get(events, u) == Some(e) <==> e.uid == u && Sends(s, c, encode, e)
  }

  /** The source stands still while it is read, and is listed in full. */
  ghost predicate ReadWhole(src: Source, v: nat, at: Moments, o: Observed, encodes: seq<Comp> -> bool) {
    && Sees(src, v, at, o) && WholeListings(src, v, at, o) && at.final == v
    && FetchEvents(src.token(v), o, encodes).Some?
  }

  lemma FeedIsForemost(token: string, o: Observed, encodes: seq<Comp> -> bool, d: Comp)
    requires FetchEvents(token, o, encodes).Some?
    ensures d in FetchEvents(token, o, encodes).value.feed.value <==> Foremost(Fetchable(token, o), d)
  {
    FirstWinsForemost(Fetchable(token, o), {}, d);
  }

  lemma FeedIsHeld(src: Source, v: nat, at: Moments, o: Observed, encodes: seq<Comp> -> bool, d: Comp)
    requires ReadWhole(src, v, at, o, encodes) && d in FetchEvents(src.token(v), o, encodes).value.feed.value
    ensures Holds(src.history[v], d)
  {
    StableFetch(src, v, at, o, encodes);
    GatheredAre(o, FetchedHrefs(src.token(v), o));
    FirstWinsIs(Fetchable(src.token(v), o), {});
  }

  ghost function EventsFor(c: Connection, encode: Comp -> Option<string>, token: string, o: Observed, encodes: seq<Comp> -> bool): map<string, Content>
    requires FetchEvents(token, o, encodes).Some?
  {
    ParseEvents(FetchEvents(token, o, encodes).value.feed.value, c.trs, encode)
  }

  lemma SentIsParsed(src: Source, v: nat, at: Moments, o: Observed, encodes: seq<Comp> -> bool, c: Connection, encode: Comp -> Option<string>, u: string)
    requires ReadWhole(src, v, at, o, encodes)
    ensures var events := EventsFor(c, encode, src.token(v), o, encodes);
            u in events ==>
              && events[u].uid == u && Sends(src.history[v], c, encode, events[u])
              && exists d :: Foremost(Fetchable(src.token(v), o), d) && EventOf(d, c.trs, encode) == Some(events[u])
  {
    var feed := FetchEvents(src.token(v), o, encodes).value.feed.value;
    if u in ParseEvents(feed, c.trs, encode) {
      EventHasSource(feed, c.trs, encode, u);
      var d :| d in feed && EventOf(d, c.trs, encode) == Some(ParseEvents(feed, c.trs, encode)[u]);
      FeedIsHeld(src, v, at, o, encodes, d);
      FeedIsForemost(src.token(v), o, encodes, d);
    }
  }

  /** The engine passes on what the source sends exactly if no two events collide and merging loses none. */
  lemma {:induction false} ConveysIs(src: Source, v: nat, at: Moments, o: Observed, encodes: seq<Comp> -> bool, c: Connection,
                                     encode: Comp -> Option<string>)
    requires ReadWhole(src, v, at, o, encodes)
    ensures Conveys(EventsFor(c, encode, src.token(v), o, encodes), c, encode, src.history[v]) <==>
            SendsOnce(src.history[v], c, encode) && MergeSpares(src.token(v), o, src.history[v], c, encode)
  {
    var events, s := EventsFor(c, encode, src.token(v), o, encodes), src.history[v];
    if Conveys(events, c, encode, s) {
      forall e: Content | Sends(s, c, encode, e)
        ensures exists d :: Foremost(Fetchable(src.token(v), o), d) && EventOf(d, c.trs, encode) == Some(e)
      {
        assert Get(events, e.uid) == Some(e);
        SentIsParsed(src, v, at, o, encodes, c, encode, e.uid);
      }
      forall e: Content, g: Content | Sends(s, c, encode, e) && Sends(s, c, encode, g) && e.uid == g.uid ensures e == g {
        assert Get(events, e.uid) == Some(e) && Get(events, g.uid) == Some(g);
      }
    }
    if SendsOnce(s, c, encode) && MergeSpares(src.token(v), o, s, c, encode) {
      forall u, e: Content ensures Get(events, u) == Some(e) <==> e.uid == u && Sends(s, c, encode, e) {
        SentIsParsed(src, v, at, o, encodes, c, encode, u);
        if e.uid == u && Sends(s, c, encode, e) {
          SparedIsParsed(src.token(v), o, encodes, s, c, encode, e);
        }
      }
    }
  }

  lemma SparedIsParsed(token: string, o: Observed, encodes: seq<Comp> -> bool, s: Snapshot, c: Connection, encode: Comp -> Option<string>, e: Content)
    requires FetchEvents(token, o, encodes).Some? && MergeSpares(token, o, s, c, encode) && Sends(s, c, encode, e)
    ensures e.uid in EventsFor(c, encode, token, o, encodes)
  {
    var d :| Foremost(Fetchable(token, o), d) && EventOf(d, c.trs, encode) == Some(e);
    FeedIsForemost(token, o, encodes, d);
    YieldsEvent(FetchEvents(token, o, encodes).value.feed.value, c.trs, encode, d);
  }

  /** Without repeated UIDs merging loses none. */
  lemma NoUidTwiceSuffices(src: Source, v: nat, at: Moments, o: Observed, encodes: seq<Comp> -> bool, c: Connection, encode: Comp -> Option<string>)
    requires ReadWhole(src, v, at, o, encodes) && NoUidTwice(src.history[v])
    ensures MergeSpares(src.token(v), o, src.history[v], c, encode)
  {
    StableUpToDate(src, v, at, o, encodes);
    forall e: Content | Sends(src.history[v], c, encode, e)
      ensures exists d :: Foremost(Fetchable(src.token(v), o), d) && EventOf(d, c.trs, encode) == Some(e)
    {
      var d :| Holds(src.history[v], d) && EventOf(d, c.trs, encode) == Some(e);
      FeedIsForemost(src.token(v), o, encodes, d);
    }
  }

  lemma AlignedReflects(w: World, c: Connection, encode: Comp -> Option<string>, s: Snapshot, events: map<string, Content>)
    requires Conveys(events, c, encode, s)
    ensures Aligned(w, c.t, events) <==> Reflects(w, c, encode, s)
  {
    if Reflects(w, c, encode, s) {
      forall u | Selected(u, c.t.prefix) ensures CellAt(w, c.t, u).res == Get(events, u) {
        var res, due := CellAt(w, c.t, u).res, Get(events, u);
        assert res.Some? ==> due == res;
        assert due.Some? ==> res == due;
      }
    }
  }

  /** What the source sends is what the turn has to write: nothing moves while the source is read in full, no UID occurs twice, and none
      comes out of the pipeline twice. */
  ghost predicate Faithful(src: Source, v: nat, at: Moments, o: Observed, encodes: seq<Comp> -> bool, c: Connection, r: Round,
                           encode: Comp -> Option<string>)
  {
    && ReadWhole(src, v, at, o, encodes) && r.fetch == FetchEvents(src.token(v), o, encodes)
    && NoUidTwice(src.history[v]) && SendsOnce(src.history[v], c, encode)
  }

  lemma FaithfulConveys(src: Source, v: nat, at: Moments, o: Observed, encodes: seq<Comp> -> bool, c: Connection, r: Round,
                        encode: Comp -> Option<string>)
    requires Faithful(src, v, at, o, encodes, c, r, encode)
    ensures r.fetch.Some? && r.fetch.value.feed.Some?
    ensures Conveys(PlanFor(c, r, encode).events, c, encode, src.history[v])
  {
    NoUidTwiceSuffices(src, v, at, o, encodes, c, encode);
    ConveysIs(src, v, at, o, encodes, c, encode);
  }

  // ---------------------------------------------------------------- turns

  /** The whole way, undisturbed. From any table of the engine's own and any collection, a turn leaves at the destination what its source
      sends, exactly if it finds the source changed and no row misleads it, or finds it unchanged and all is there already. */
  lemma TurnReflects(s: System, src: Source, v: nat, at: Moments, o: Observed, encodes: seq<Comp> -> bool, c: Connection, r: Round,
                     encode: Comp -> Option<string>)
    requires Faithful(src, v, at, o, encodes, c, r, encode)
    requires NothingFails(c, r) && OwnRows(s.w.rows, c.t.name) && ValidRound(s, c, r, encode)
    ensures Reflects(SyncConnection(s, c, r, encode).s.w, c, encode, src.history[v]) <==> WillAlign(s, c, r, encode)
  {
    FaithfulConveys(src, v, at, o, encodes, c, r, encode);
    TurnAligns(s, c, r, encode);
    AlignedReflects(SyncConnection(s, c, r, encode).s.w, c, encode, src.history[v], PlanFor(c, r, encode).events);
  }

  /** The same for each of several independent connections in one `Sync`. */
  lemma SyncReflects(s: System, cs: seq<Connection>, os: seq<Outlook>, i: nat, src: Source, v: nat, at: Moments, o: Observed,
                     encodes: seq<Comp> -> bool, encode: Comp -> Option<string>)
    requires |cs| == |os| && AllWalking(os) && AllProper(s, cs) && PairwiseIndependent(cs) && i < |cs|
    requires NothingFails(cs[i], RoundIn(s, cs[i], os[i], encode))
    requires Faithful(src, v, at, o, encodes, cs[i], RoundIn(s, cs[i], os[i], encode), encode)
    ensures var rs := RoundsIn(s, cs, os, encode);
            && ValidRounds(s, cs, rs, encode)
            && (Reflects(SystemAfter(s, SyncAll(s, cs, rs, encode)).w, cs[i], encode, src.history[v]) <==>
                WillAlign(s, cs[i], RoundIn(s, cs[i], os[i], encode), encode))
  {
    var c, r, rs := cs[i], RoundIn(s, cs[i], os[i], encode), RoundsIn(s, cs, os, encode);
    SyncAligns(s, cs, os, encode, i);
    FaithfulConveys(src, v, at, o, encodes, c, r, encode);
    AlignedReflects(SystemAfter(s, SyncAll(s, cs, rs, encode)).w, c, encode, src.history[v], PlanFor(c, r, encode).events);
  }

  /** A successful run leaves the resource wrong: its row vouches for an event that is not there; or it has no event and is not deleted,
      for want of an active row, by a soft delete, or by a hard one without effect. */
  ghost predicate Stuck(w: World, p: Plan, u: string) {
    var c := CellAt(w, p.t, u);
    if u in p.events then c.res != Some(p.events[u]) && u in ListedBy(w, p) && ListedBy(w, p)[u] == HashContent(p.events[u])
    else c.res.Some? && !(ActiveCell(c) && p.t.hard && p.faults.stale(u).call.TakesEffect())
  }

  lemma {:induction false} StuckIs(w: World, p: Plan, u: string)
    requires p.faults.listing.Rows? && Selected(u, p.t.prefix) && !Expected(w, p, u).1.Fatal() && u !in Missed(w, p)
    ensures Expected(w, p, u).0.res == Get(p.events, u) <==> !Stuck(w, p, u)
  {
    ActiveIs(w, p.t, u);
    ListedIs(w, p, u);
  }

  /** The whole way, whatever fails in it. A turn that reports success and misses no stale row leaves at the destination what its source
      sends exactly if no resource under the prefix is stuck. */
  lemma SuccessReflects(s: System, src: Source, v: nat, at: Moments, o: Observed, encodes: seq<Comp> -> bool, c: Connection, r: Round,
                        encode: Comp -> Option<string>)
    requires Faithful(src, v, at, o, encodes, c, r, encode)
    requires ProperRows(s.w.rows, c.t) && ValidRound(s, c, r, encode) && SyncConnection(s, c, r, encode).outcome == Synced
    ensures r.faults.listing.Rows?
    ensures Missed(s.w, PlanFor(c, r, encode)) == {} ==>
              (Reflects(SyncConnection(s, c, r, encode).s.w, c, encode, src.history[v]) <==>
               forall u :: Selected(u, c.t.prefix) ==> !Stuck(s.w, PlanFor(c, r, encode), u))
  {
    var p, w' := PlanFor(c, r, encode), SyncConnection(s, c, r, encode).s.w;
    FaithfulConveys(src, v, at, o, encodes, c, r, encode);
    ParsedIsProper(r.fetch.value.feed.value, c.trs, encode);
    RunSettles(s.w, p, r.order, r.staleOrder);
    AlignedReflects(w', c, encode, src.history[v], p.events);
    if Missed(s.w, p) == {} {
      forall u | Selected(u, c.t.prefix) ensures CellAt(w', c.t, u).res == Get(p.events, u) <==> !Stuck(s.w, p, u) {
        StuckIs(s.w, p, u);
      }
    }
  }
}
