/** The `Syncer` object: construction, `Sync` and `syncDestination` as loops over
    a store and a calendar server that they update in place. */
module Engine {
  import opened Text
  import opened Records
  import opened Storage
  import opened Remote
  import opened Reconcile
  import opened Pipeline
  import opened Feed
  import opened Configuration
  import opened SyncLoop
  import opened Connections
  import opened Convergence
  import opened Restore
  import opened Confinement

  // ---------------------------------------------------------------- from settings to connections

  /** The index a source name ends up with: that of its last bearer. */
  function LastIndex(ss: seq<SourceConfig>, name: string): (r: Option<nat>)
    ensures r.Some? ==> r.value < |ss| && ss[r.value].name == name && forall j :: r.value < j < |ss| ==> ss[j].name != name
    ensures r.None? ==> forall s <- ss :: s.name != name
  {
    if ss == [] then None
    else if ss[|ss| - 1].name == name then Some(|ss| - 1)
    else LastIndex(ss[..|ss| - 1], name)
  }

  function ConnectionOf(cfg: Settings, hash: string -> string, d: DestinationConfig): Connection {
    var hard := cfg.sync.deleteMode == "hard";
    match LastIndex(cfg.sources, d.source)
    case None => Connection(Target(d.name, d.url, "", hard), "", [], false)
    case Some(i) =>
      var src := cfg.sources[i];
      var prefix := hash(src.url);
      Connection(Target(d.name, d.url, prefix, hard), src.url,
                 Assembled(cfg.sync.filterPrivate, prefix, src.transformers, d.transformers, hash), true)
  }

  function ConnectionsOf(cfg: Settings, hash: string -> string): (cs: seq<Connection>)
    ensures |cs| == |cfg.destinations|
  {
    seq(|cfg.destinations|, i requires 0 <= i < |cfg.destinations| => ConnectionOf(cfg, hash, cfg.destinations[i]))
  }

  /** With an accepted configuration no connection of `Sync` has an unknown source. */
  lemma AcceptedIsKnown(cfg: Settings, hash: string -> string, isDuration: string -> bool, i: nat)
    requires Accepted(cfg, isDuration) && i < |cfg.destinations|
    ensures ConnectionsOf(cfg, hash)[i].known
  {
    assert DestOk(cfg.sources, cfg.destinations, i);
    var j :| 0 <= j < |cfg.sources| && cfg.sources[j].name == cfg.destinations[i].source;
    assert cfg.sources[j] in cfg.sources;
  }

  /** Under `filter_private`, no connection's output depends on the details of private events. */
  lemma ConnectionsHide(cfg: Settings, hash: string -> string, i: nat, f: seq<Comp>, g: seq<Comp>, encode: Comp -> Option<string>)
    requires cfg.sync.filterPrivate && i < |cfg.destinations| && ConnectionsOf(cfg, hash)[i].known
    requires SameButPrivate(f, g)
    ensures ParseEvents(f, ConnectionsOf(cfg, hash)[i].trs, encode) == ParseEvents(g, ConnectionsOf(cfg, hash)[i].trs, encode)
  {
    var d := cfg.destinations[i];
    var src := cfg.sources[LastIndex(cfg.sources, d.source).value];
    AssembledHides(hash(src.url), src.transformers, d.transformers, hash);
    PrivateDetailsStay(f, g, ConnectionsOf(cfg, hash)[i].trs, encode);
  }

  /** Every event of a connection carries its source's prefix exactly if neither the transformers of that source nor those of the
      destination ask for another one in the end. */
  lemma ConnectionsPrefixed(cfg: Settings, hash: string -> string, i: nat)
    requires i < |cfg.destinations| && ConnectionsOf(cfg, hash)[i].known
    requires var c := ConnectionsOf(cfg, hash)[i]; c.t.prefix != "" && NoWildcard(c.t.prefix)
    ensures var d := cfg.destinations[i];
            var src := cfg.sources[LastIndex(cfg.sources, d.source).value];
            Prefixed(ConnectionsOf(cfg, hash)[i]) <==> KeepsPrefix(src.transformers, d.transformers, hash(src.url))
  {
    var d := cfg.destinations[i];
    var src := cfg.sources[LastIndex(cfg.sources, d.source).value];
    AssembledPrefix(cfg.sync.filterPrivate, hash(src.url), src.transformers, d.transformers, hash);
  }

  // ---------------------------------------------------------------- what a configuration permits

  /** Source `j` is the one that the destination names: the last of that name. */
  ghost predicate Serves(cfg: Settings, d: DestinationConfig, j: nat) {
    && j < |cfg.sources| && cfg.sources[j].name == d.source
    && forall k :: j < k < |cfg.sources| ==> cfg.sources[k].name != d.source
  }

  lemma ServesIs(cfg: Settings, d: DestinationConfig, j: nat)
    ensures Serves(cfg, d, j) <==> LastIndex(cfg.sources, d.source) == Some(j)
  {
  }

  /** A turn of one configured destination. It changes no row but those under the destination's name, no resource but those at addresses of
      its collection or of its rows, and no saved state but that of the source it names; and unless `delete_mode` is "hard" it takes no
      resource away. Whatever fails, and whatever the rows say. */
  lemma TurnPermitted(cfg: Settings, hash: string -> string, i: nat, s: SyncLoop.System, r: Round, encode: Comp -> Option<string>, url: string)
    requires i < |cfg.destinations| && ValidRound(s, ConnectionsOf(cfg, hash)[i], r, encode)
    ensures var s', d := SyncConnection(s, ConnectionsOf(cfg, hash)[i], r, encode).s, cfg.destinations[i];
            && Confined(s.w, s'.w, d.name, d.url)
            && ((forall j: nat :: Serves(cfg, d, j) ==> cfg.sources[j].url != url) ==> Get(s'.states, url) == Get(s.states, url))
            && (cfg.sync.deleteMode != "hard" ==> s.w.remote.Keys <= s'.w.remote.Keys)
  {
    var c, d := ConnectionsOf(cfg, hash)[i], cfg.destinations[i];
    TurnConfined(s, c, r, encode, url);
    if c.known {
      ServesIs(cfg, d, LastIndex(cfg.sources, d.source).value);
    }
  }

  /** Under `delete_mode` "hard" an undisturbed turn that gets to its destination leaves no resource where an active row under the
      source's prefix points whose UID has no event any more. */
  lemma HardTurnPurges(cfg: Settings, hash: string -> string, i: nat, j: nat, s: SyncLoop.System, r: Round, encode: Comp -> Option<string>, u: string)
    requires i < |cfg.destinations| && Serves(cfg, cfg.destinations[i], j) && cfg.sync.deleteMode == "hard"
    requires var c := ConnectionsOf(cfg, hash)[i];
             && NothingFails(c, r) && ReachesDestination(s, c, r) && ValidRound(s, c, r, encode)
             && u !in ParseEvents(r.fetch.value.feed.value, c.trs, encode)
    requires var k := Key(u, cfg.destinations[i].name);
             k in s.w.rows && !s.w.rows[k].deleted && Selected(u, hash(cfg.sources[j].url))
    ensures s.w.rows[Key(u, cfg.destinations[i].name)].href !in SyncConnection(s, ConnectionsOf(cfg, hash)[i], r, encode).s.w.remote
  {
    ServesIs(cfg, cfg.destinations[i], j);
    RunPurges(s.w, PlanFor(ConnectionsOf(cfg, hash)[i], r, encode), r.order, r.staleOrder, u);
  }

  /** A whole `Sync` over the configured destinations. */
  ghost predicate Permits(cfg: Settings, s: SyncLoop.System, s': SyncLoop.System) {
    && (forall k: Key :: (forall d <- cfg.destinations :: d.name != k.dest) ==> Get(s'.w.rows, k) == Get(s.w.rows, k))
    && (forall h :: (forall d <- cfg.destinations :: Far(s.w, d.name, d.url, h)) ==> Get(s'.w.remote, h) == Get(s.w.remote, h))
    && (forall url :: (forall x <- cfg.sources :: x.url != url) ==> Get(s'.states, url) == Get(s.states, url))
    && (cfg.sync.deleteMode != "hard" ==> s.w.remote.Keys <= s'.w.remote.Keys)
  }

  lemma {:induction false} ConnectionsAre(cfg: Settings, hash: string -> string, c: Connection)
    requires c in ConnectionsOf(cfg, hash)
    ensures exists d <- cfg.destinations :: c.t.name == d.name && c.t.base == d.url
    ensures c.t.hard <==> cfg.sync.deleteMode == "hard"
    ensures c.known ==> exists x <- cfg.sources :: c.url == x.url
  {
    var i :| 0 <= i < |cfg.destinations| && ConnectionOf(cfg, hash, cfg.destinations[i]) == c;
    assert cfg.destinations[i] in cfg.destinations;
    if c.known {
      assert cfg.sources[LastIndex(cfg.sources, cfg.destinations[i].source).value] in cfg.sources;
    }
  }

  lemma {:induction false} SyncPermitsAt(cfg: Settings, hash: string -> string, s: SyncLoop.System, rs: seq<Round>, encode: Comp -> Option<string>,
                                         k: Key, url: string)
    requires ValidRounds(s, ConnectionsOf(cfg, hash), rs, encode)
    ensures var s' := SystemAfter(s, SyncAll(s, ConnectionsOf(cfg, hash), rs, encode));
            && ((forall d <- cfg.destinations :: d.name != k.dest) ==> Get(s'.w.rows, k) == Get(s.w.rows, k))
            && ((forall x <- cfg.sources :: x.url != url) ==> Get(s'.states, url) == Get(s.states, url))
            && (cfg.sync.deleteMode != "hard" ==> s.w.remote.Keys <= s'.w.remote.Keys)
  {
    var cs := ConnectionsOf(cfg, hash);
    forall c <- cs
      ensures (forall d <- cfg.destinations :: d.name != k.dest) ==> c.t.name != k.dest
      ensures (forall x <- cfg.sources :: x.url != url) ==> c.known ==> c.url != url
      ensures cfg.sync.deleteMode != "hard" ==> !c.t.hard
    {
      ConnectionsAre(cfg, hash, c);
    }
    SyncConfined(s, cs, rs, encode, k, url);
  }

  lemma {:induction false} SyncPermitsFar(cfg: Settings, hash: string -> string, s: SyncLoop.System, rs: seq<Round>, encode: Comp -> Option<string>, h: string)
    requires ValidRounds(s, ConnectionsOf(cfg, hash), rs, encode) && forall d <- cfg.destinations :: Far(s.w, d.name, d.url, h)
    ensures Get(SystemAfter(s, SyncAll(s, ConnectionsOf(cfg, hash), rs, encode)).w.remote, h) == Get(s.w.remote, h)
  {
    forall c <- ConnectionsOf(cfg, hash) ensures Far(s.w, c.t.name, c.t.base, h) {
      ConnectionsAre(cfg, hash, c);
    }
    SyncSparesFar(s, ConnectionsOf(cfg, hash), rs, encode, h);
  }

  lemma {:induction false} SyncPermitted(cfg: Settings, hash: string -> string, s: SyncLoop.System, rs: seq<Round>, encode: Comp -> Option<string>)
    requires ValidRounds(s, ConnectionsOf(cfg, hash), rs, encode)
    ensures Permits(cfg, s, SystemAfter(s, SyncAll(s, ConnectionsOf(cfg, hash), rs, encode)))
  {
    var s' := SystemAfter(s, SyncAll(s, ConnectionsOf(cfg, hash), rs, encode));
    SyncPermitsAt(cfg, hash, s, rs, encode, Key("", ""), "");
    forall k: Key | forall d <- cfg.destinations :: d.name != k.dest ensures Get(s'.w.rows, k) == Get(s.w.rows, k) {
      SyncPermitsAt(cfg, hash, s, rs, encode, k, "");
    }
    forall h | forall d <- cfg.destinations :: Far(s.w, d.name, d.url, h) ensures Get(s'.w.remote, h) == Get(s.w.remote, h) {
      SyncPermitsFar(cfg, hash, s, rs, encode, h);
    }
    forall url | forall x <- cfg.sources :: x.url != url ensures Get(s'.states, url) == Get(s.states, url) {
      SyncPermitsAt(cfg, hash, s, rs, encode, Key("", ""), url);
    }
  }

  lemma PermitsNothing(cfg: Settings, s: SyncLoop.System)
    ensures Permits(cfg, s, s)
  {
  }

  /** `Sync` reports no error exactly if every outcome is one of these. */
  lemma SurfacingIs(vs: seq<Visit>)
    ensures (forall i :: 0 <= i < |vs| ==> !vs[i].outcome.Surfaces()) <==> forall v <- vs :: v.outcome in {NotChanged, Synced, DestinationFailed}
  {
    if forall v <- vs :: v.outcome in {NotChanged, Synced, DestinationFailed} {
      forall i | 0 <= i < |vs| ensures !vs[i].outcome.Surfaces() {
        assert vs[i] in vs;
      }
    }
  }

  // ---------------------------------------------------------------- helpers

  lemma NoDupSnoc(s: seq<string>, u: string)
    requires NoDup(s) && u !in s
    ensures NoDup(s + [u])
    ensures forall x :: x in s + [u] <==> x in s || x == u
  {
    forall i, j | 0 <= i < j < |s + [u]| ensures (s + [u])[i] != (s + [u])[j] {
      assert (s + [u])[i] == s[i] && s[i] in s;
    }
  }

  /** Go's iteration over a map: every key once, in an order nobody controls. */
  method MapRange(keys: set<string>) returns (order: seq<string>)
    ensures Enumerates(order, keys)
  {
    order := [];
    var rest := keys;
    while rest != {}
      invariant rest <= keys && NoDup(order)
      invariant forall u :: u in order <==> u in keys - rest
    {
      var u :| u in rest;
      NoDupSnoc(order, u);
      order := order + [u];
      rest := rest - {u};
    }
  }

  lemma {:induction false} CountOfConcat(a: seq<Entry>, b: seq<Entry>, v: Verdict)
    ensures CountOf(a + b, v) == CountOf(a, v) + CountOf(b, v)
  {
    if a == [] {
      assert a + b == b;
    } else {
      assert (a + b)[1..] == a[1..] + b;
      CountOfConcat(a[1..], b, v);
    }
  }

  /** The components of a decoded calendar, as new objects. */
  method Decode(feed: seq<Comp>) returns (comps: seq<Component>)
    ensures fresh(comps) && Values(comps) == feed
  {
    comps := [];
    for i := 0 to |feed|
      invariant fresh(comps) && |comps| == i
      invariant forall j :: 0 <= j < i ==> comps[j].Value() == feed[j]
    {
      var c := new Component(feed[i].name, feed[i].props, feed[i].children);
      comps := comps + [c];
    }
  }

  /** What a connection meets in one `Sync`, but for the map orders. */
  datatype Weather = Weather(stateReadable: bool, probe: Option<CalendarState>, fetch: Option<Fetched>, stateWrite: Fate, faults: Faults)

  function RoundOf(w: Weather, order: seq<string>, staleOrder: seq<string>): Round {
    Round(w.stateReadable, w.probe, w.fetch, w.stateWrite, w.faults, order, staleOrder)
  }

  // ---------------------------------------------------------------- statistics

  datatype Stats = Stats(events: nat, created: nat, updated: nat, deleted: nat, errors: nat)

  const NO_STATS := Stats(0, 0, 0, 0, 0)

  function StatsOf(stats: map<string, Stats>, name: string): Stats {
    if name in stats then stats[name] else NO_STATS
  }

  /** The events that a successful run dealt with. */
  function Handled(trace: seq<Entry>): nat {
    CountOf(trace, Created) + CountOf(trace, Updated) + CountOf(trace, Unchanged)
  }

  /** A visit in the statistics: success adds the counters, any failure counts as one error. */
  function Recorded(stats: map<string, Stats>, name: string, v: Visit): map<string, Stats> {
    var st := StatsOf(stats, name);
    if v.outcome == NotChanged then stats
    else if v.outcome == Synced then
      stats[name := Stats(st.events + Handled(v.trace), st.created + CountOf(v.trace, Created), st.updated + CountOf(v.trace, Updated),
                          st.deleted + CountOf(v.trace, Tombstoned), st.errors)]
    else stats[name := st.(errors := st.errors + 1)]
  }

  /** What a successful turn adds: its events, of them those without row as created and those whose row is not current as updated, and the
      stale mappings that were not missed as deleted. */
  ghost predicate Adds(w: World, p: Plan, was: Stats, now: Stats)
    requires p.faults.listing.Rows?
  {
    && now.events == was.events + |p.events|
    && now.created == was.created + |set u <- p.events | Key(u, p.t.name) !in w.rows|
    && now.updated == was.updated + |set u <- p.events | Key(u, p.t.name) in w.rows && !Current(w, p, u)|
    && now.deleted == was.deleted + |Active(w, p.t).Keys - p.events.Keys - Missed(w, p)|
    && now.errors == was.errors
  }

  lemma {:induction false} RunAdds(w: World, p: Plan, order: seq<string>, staleOrder: seq<string>, was: Stats)
    requires ProperRows(w.rows, p.t) && ProperEvents(p.events) && Walks(w, p, order, staleOrder)
    requires Reconcile.SyncDestination(w, p, order, staleOrder).ok
    ensures p.faults.listing.Rows?
    ensures var trace := Reconcile.SyncDestination(w, p, order, staleOrder).trace;
            Adds(w, p, was, Stats(was.events + Handled(trace), was.created + CountOf(trace, Created), was.updated + CountOf(trace, Updated),
                                  was.deleted + CountOf(trace, Tombstoned), was.errors))
  {
    UpdatedCounter(w, p, order, staleOrder);
    Counters(w, p, order, staleOrder);
  }

  /** The record of any turn: nothing for other destinations or an unchanged source, one error for any failure. */
  lemma OneErrorEach(stats: map<string, Stats>, name: string, v: Visit, other: string)
    ensures other != name ==> Get(Recorded(stats, name, v), other) == Get(stats, other)
    ensures v.outcome == NotChanged ==> Recorded(stats, name, v) == stats
    ensures v.outcome in {UnknownSource, ProbeFailed, FetchFailed, ParseFailed, DestinationFailed} ==>
              var st := StatsOf(stats, name); StatsOf(Recorded(stats, name, v), name) == st.(errors := st.errors + 1)
  {
  }

  /** The record of a successful turn, told by the table it finds. */
  lemma {:induction false} TurnCounts(stats: map<string, Stats>, s: SyncLoop.System, c: Connection, r: Round, encode: Comp -> Option<string>)
    requires ProperRows(s.w.rows, c.t) && ValidRound(s, c, r, encode) && SyncConnection(s, c, r, encode).outcome == Synced
    ensures ReachesDestination(s, c, r) && r.faults.listing.Rows?
    ensures var now := Recorded(stats, c.t.name, SyncConnection(s, c, r, encode));
            Adds(s.w, PlanFor(c, r, encode), StatsOf(stats, c.t.name), StatsOf(now, c.t.name))
  {
    ParsedIsProper(r.fetch.value.feed.value, c.trs, encode);
    RunAdds(s.w, PlanFor(c, r, encode), r.order, r.staleOrder, StatsOf(stats, c.t.name));
  }

  function NamesOf(ds: seq<DestinationConfig>): set<string> {
    set d <- ds :: d.name
  }

  /** An entry for every destination. */
  function Prefilled(ds: seq<DestinationConfig>): map<string, Stats> {
    map n <- NamesOf(ds) :: NO_STATS
  }

  lemma PrefilledIs(ds: seq<DestinationConfig>, name: string)
    ensures Get(Prefilled(ds), name) == if exists d <- ds :: d.name == name then Some(Stats(0, 0, 0, 0, 0)) else None
  {
  }

  method PrefillStats(ds: seq<DestinationConfig>) returns (stats: map<string, Stats>)
    ensures stats == Prefilled(ds)
  {
    stats := map[];
    for i := 0 to |ds|
      invariant stats == Prefilled(ds[..i])
    {
      assert ds[..i + 1] == ds[..i] + [ds[i]];
      stats := stats[ds[i].name := NO_STATS];
    }
    assert ds[..|ds|] == ds;
  }

  ghost function RecordedAll(stats: map<string, Stats>, cs: seq<Connection>, vs: seq<Visit>): map<string, Stats>
    requires |cs| == |vs|
  {
    if cs == [] then stats
    else Recorded(RecordedAll(stats, cs[..|cs| - 1], vs[..|vs| - 1]), cs[|cs| - 1].t.name, vs[|vs| - 1])
  }

  // ---------------------------------------------------------------- the syncer

  ghost predicate Indexes(index: map<string, nat>, ss: seq<SourceConfig>) {
    && (forall n :: n in index <==> LastIndex(ss, n).Some?)
    && (forall n :: n in index ==> index[n] == LastIndex(ss, n).value)
  }

  method IndexSources(ss: seq<SourceConfig>) returns (index: map<string, nat>)
    ensures Indexes(index, ss)
  {
    index := map[];
    for i := 0 to |ss|
      invariant Indexes(index, ss[..i])
    {
      assert ss[..i + 1][..i] == ss[..i];
      index := index[ss[i].name := i];
    }
    assert ss[..|ss|] == ss;
  }

  /** A known connection has its pipeline. */
  ghost predicate Fits(pipeline: TransformPipeline?, c: Connection)
    reads pipeline
  {
    c.known ==> pipeline != null && pipeline.transformers == c.trs
  }

  ghost predicate Matches(pipelines: seq<TransformPipeline?>, cs: seq<Connection>)
    requires |pipelines| <= |cs|
    reads pipelines
  {
    forall i :: 0 <= i < |pipelines| ==> Fits(pipelines[i], cs[i])
  }

  method BuildFor(cfg: Settings, hash: string -> string, index: map<string, nat>, d: DestinationConfig)
    returns (pipeline: TransformPipeline?)
    requires Indexes(index, cfg.sources)
    ensures Fits(pipeline, ConnectionOf(cfg, hash, d)) && (pipeline != null ==> fresh(pipeline))
    ensures pipeline == null <==> d.source !in index
  {
    if d.source !in index { return null; }
    var src := cfg.sources[index[d.source]];
    pipeline := BuildPipeline(cfg.sync.filterPrivate, hash(src.url), src.transformers, d.transformers, hash);
  }

  method BuildPipelines(cfg: Settings, hash: string -> string, index: map<string, nat>) returns (built: seq<TransformPipeline?>)
    requires Indexes(index, cfg.sources)
    ensures |built| == |cfg.destinations| && Matches(built, ConnectionsOf(cfg, hash))
  {
    built := [];
    for i := 0 to |cfg.destinations|
      invariant |built| == i && Matches(built, ConnectionsOf(cfg, hash))
    {
      var pipeline := BuildFor(cfg, hash, index, cfg.destinations[i]);
      built := built + [pipeline];
    }
  }

  /** The run `r`, after the entries of `trace`. */
  ghost function After(trace: seq<Entry>, r: Run): Run {
    Run(r.world, trace + r.trace, r.ok)
  }

  lemma AfterStep(trace: seq<Entry>, e: Entry, r: Run)
    ensures After(trace, Before(e, r)) == After(trace + [e], r)
  {
    assert trace + ([e] + r.trace) == (trace + [e]) + r.trace;
  }

  /** One turn of the event loop, in the middle of its walk. */
  lemma EventTurn(w: World, p: Plan, order: seq<string>, i: nat, listed: map<string, Digest>, trace: seq<Entry>)
    requires i < |order| && forall u <- order :: u in p.events
    ensures var (w', v) := EventStep(w, p.t, order[i], p.events[order[i]], listed, p.faults.event(order[i]));
            After(trace, EventLoop(w, p, order[i..], listed)) ==
            if v.Fatal() then Run(w', trace + [Entry(order[i], v)], false)
            else After(trace + [Entry(order[i], v)], EventLoop(w', p, order[i + 1..], listed))
  {
    assert order[i..][0] == order[i] && order[i..][1..] == order[i + 1..];
    var (w', v) := EventStep(w, p.t, order[i], p.events[order[i]], listed, p.faults.event(order[i]));
    AfterStep(trace, Entry(order[i], v), EventLoop(w', p, order[i + 1..], listed));
  }

  /** One turn of the stale loop that is not skipped. */
  lemma StaleTurn(w: World, p: Plan, order: seq<string>, i: nat, listed: map<string, Digest>, trace: seq<Entry>)
    requires i < |order| && (forall u <- order :: u in listed) && order[i] !in p.events
    ensures var (w', v) := StaleStep(w, p.t, order[i], listed[order[i]], p.faults.stale(order[i]));
            After(trace, StaleLoop(w, p, order[i..], listed)) ==
            if v.Fatal() then Run(w', trace + [Entry(order[i], v)], false)
            else After(trace + [Entry(order[i], v)], StaleLoop(w', p, order[i + 1..], listed))
  {
    assert order[i..][0] == order[i] && order[i..][1..] == order[i + 1..];
    var (w', v) := StaleStep(w, p.t, order[i], listed[order[i]], p.faults.stale(order[i]));
    AfterStep(trace, Entry(order[i], v), StaleLoop(w', p, order[i + 1..], listed));
  }

  lemma CountOne(trace: seq<Entry>, e: Entry, v: Verdict)
    ensures CountOf(trace + [e], v) == CountOf(trace, v) + if e.verdict == v then 1 else 0
  {
    CountOfConcat(trace, [e], v);
    assert [e][1..] == [];
  }

  class Syncer {
    const cfg: Settings
    const hash: string -> string
    const encode: Comp -> Option<string>
    const store: Store
    const server: CalendarServer
    var sourceIndex: map<string, nat>
    var pipelines: seq<TransformPipeline?>
    var stats: map<string, Stats>
    var running: bool

    ghost predicate Valid()
      reads this, pipelines
    {
      && |pipelines| == |cfg.destinations| && Matches(pipelines, ConnectionsOf(cfg, hash))
      && Indexes(sourceIndex, cfg.sources)
    }

    function System(): SyncLoop.System
      reads store, server
    {
      SyncLoop.System(World(store.mappings, server.resources), store.states)
    }

    constructor (cfg: Settings, store: Store, server: CalendarServer, hash: string -> string, encode: Comp -> Option<string>)
      ensures Valid() && !running && stats == Prefilled(cfg.destinations)
      ensures this.cfg == cfg && this.store == store && this.server == server && this.hash == hash && this.encode == encode
    {
      this.cfg, this.store, this.server, this.hash, this.encode := cfg, store, server, hash, encode;
      running := false;
      var index := IndexSources(cfg.sources);
      var entries := PrefillStats(cfg.destinations);
      var built := BuildPipelines(cfg, hash, index);
      sourceIndex, stats, pipelines := index, entries, built;
    }

    method EventPass(p: Plan, listed: map<string, Digest>, order: seq<string>)
      returns (created: nat, updated: nat, ok: bool, ghost trace: seq<Entry>)
      requires forall u <- order :: u in p.events
      modifies store`mappings, server
      ensures var r := EventLoop(old(World(store.mappings, server.resources)), p, order, listed);
              r == Run(World(store.mappings, server.resources), trace, ok)
      ensures created == CountOf(trace, Created) && updated == CountOf(trace, Updated)
    {
      created, updated, trace := 0, 0, [];
      ghost var whole := EventLoop(World(store.mappings, server.resources), p, order, listed);
      assert order[0..] == order && [] + whole.trace == whole.trace;
      for i := 0 to |order|
        invariant whole == After(trace, EventLoop(World(store.mappings, server.resources), p, order[i..], listed))
        invariant created == CountOf(trace, Created) && updated == CountOf(trace, Updated)
      {
        var uid := order[i];
        EventTurn(World(store.mappings, server.resources), p, order, i, listed, trace);
        var verdict := VisitEvent(p.t, uid, p.events[uid], listed, p.faults.event(uid));
        CountOne(trace, Entry(uid, verdict), Created);
        CountOne(trace, Entry(uid, verdict), Updated);
        trace := trace + [Entry(uid, verdict)];
        if verdict.Fatal() {
          return created, updated, false, trace;
        }
        if verdict.Created? { created := created + 1; }
        if verdict.Updated? { updated := updated + 1; }
      }
      assert trace + [] == trace;
      ok := true;
    }

    /** The body of the event loop: read the mapping, then skip, create or update. */
    method VisitEvent(t: Target, uid: string, data: Content, listed: map<string, Digest>, f: UidFates) returns (v: Verdict)
      modifies store`mappings, server
      ensures (World(store.mappings, server.resources), v) ==
              EventStep(old(World(store.mappings, server.resources)), t, uid, data, listed, f)
    {
      var readOk, m := store.GetMapping(uid, t.name, f.readable);
      if !readOk { return ReadFailed; }
      var hash := HashContent(data);
      if uid in listed && listed[uid] == hash && !m.deleted { return Unchanged; }
      if m.destUid == "" {
        var created, href := server.CreateEvent(t.base, data, f.call);
        if !created { return CallFailed; }
        var written := store.SetMapping(uid, t.name, Row(uid, href, "", hash, false), f.write);
        return if written then Created else WriteFailed;
      } else {
        var updated := server.UpdateEvent(m.href, data, m.etag, f.call);
        if !updated { return CallFailed; }
        var written := store.SetMapping(uid, t.name, Row(m.destUid, m.href, "", hash, false), f.write);
        return if written then Updated else WriteFailed;
      }
    }

    /** The body of the stale loop: a failed delete call is only logged. */
    method VisitStale(t: Target, uid: string, hash: Digest, f: UidFates) returns (v: Verdict)
      modifies store`mappings, server
      ensures (World(store.mappings, server.resources), v) ==
              StaleStep(old(World(store.mappings, server.resources)), t, uid, hash, f)
    {
      var readOk, m := store.GetMapping(uid, t.name, f.readable);
      if !readOk || m.deleted { return PassedOver; }
      if t.hard {
        var _ := server.DeleteEvent(m.href, m.etag, f.call);
      }
      var written := store.SetMapping(uid, t.name, Row(m.destUid, m.href, m.etag, hash, true), f.write);
      return if written then Tombstoned else WriteFailed;
    }

    method StalePass(p: Plan, listed: map<string, Digest>, order: seq<string>)
      returns (deleted: nat, ok: bool, ghost trace: seq<Entry>)
      requires forall u <- order :: u in listed
      modifies store`mappings, server
      ensures var r := StaleLoop(old(World(store.mappings, server.resources)), p, order, listed);
              r == Run(World(store.mappings, server.resources), trace, ok)
      ensures deleted == CountOf(trace, Tombstoned)
    {
      deleted, trace := 0, [];
      ghost var whole := StaleLoop(World(store.mappings, server.resources), p, order, listed);
      assert order[0..] == order && [] + whole.trace == whole.trace;
      for i := 0 to |order|
        invariant whole == After(trace, StaleLoop(World(store.mappings, server.resources), p, order[i..], listed))
        invariant deleted == CountOf(trace, Tombstoned)
      {
        var uid := order[i];
        if uid in p.events {
          assert order[i..][0] == uid && order[i..][1..] == order[i + 1..];
          continue;
        }
        StaleTurn(World(store.mappings, server.resources), p, order, i, listed, trace);
        var verdict := VisitStale(p.t, uid, listed[uid], p.faults.stale(uid));
        CountOne(trace, Entry(uid, verdict), Tombstoned);
        trace := trace + [Entry(uid, verdict)];
        if verdict.Fatal() {
          return deleted, false, trace;
        }
        if verdict.Tombstoned? { deleted := deleted + 1; }
      }
      assert trace + [] == trace;
      ok := true;
    }

    /** One destination. The walks taken are reported to the specification only. */
    method SyncDestination(p: Plan)
      returns (created: nat, updated: nat, deleted: nat, ok: bool, ghost order: seq<string>, ghost staleOrder: seq<string>)
      modifies store`mappings, server
      ensures var w := old(World(store.mappings, server.resources));
              && Walks(w, p, order, staleOrder)
              && var r := Reconcile.SyncDestination(w, p, order, staleOrder);
              && World(store.mappings, server.resources) == r.world && ok == r.ok
              && (ok ==> created == CountOf(r.trace, Created) && updated == CountOf(r.trace, Updated)
                         && deleted == CountOf(r.trace, Tombstoned))
              && (!ok ==> created == updated == deleted == 0)
    {
      created, updated, deleted, ok := 0, 0, 0, false;
      ghost var w := World(store.mappings, server.resources);
      var o := MapRange(p.events.Keys);
      var listOk, listed := store.ListMappings(p.t.name, p.t.prefix, p.faults.listing);
      if !listOk {
        order, staleOrder := o, [];
        return;
      }
      var s := MapRange(listed.Keys);
      order, staleOrder := o, s;
      assert listed == ListedBy(w, p);
      ghost var trace1, trace2;
      var c, u, ok1;
      c, u, ok1, trace1 := EventPass(p, listed, o);
      if !ok1 { return; }
      var d, ok2;
      d, ok2, trace2 := StalePass(p, listed, s);
      if !ok2 { return; }
      EventsNeverTombstone(w, p, o, listed);
      StaleNeverCreates(EventLoop(w, p, o, listed).world, p, s, listed);
      CountOfConcat(trace1, trace2, Created);
      CountOfConcat(trace1, trace2, Updated);
      CountOfConcat(trace1, trace2, Tombstoned);
      created, updated, deleted, ok := c, u, d, true;
    }

    /** The source side of a connection's turn: read its saved state, ask whether the source moved, fetch it, and
        save the fetched state, whether or not that write succeeds. */
    method ReadSource(i: nat, weather: Weather) returns (outcome: Outcome)
      requires Valid() && i < |cfg.destinations|
      modifies store`states
      ensures var c, r := ConnectionsOf(cfg, hash)[i], RoundOf(weather, [], []);
              && outcome == SourceSide(c, r, LastState(old(System()), c, r))
              && store.states == StatesAfter(old(System()), c, r)
    {
      var d := cfg.destinations[i];
      if d.source !in sourceIndex { return UnknownSource; }
      var src := cfg.sources[sourceIndex[d.source]];
      var stateOk, last := store.GetSourceState(src.url, weather.stateReadable);
      if !stateOk {
        last := NO_STATE;
      }
      if weather.probe.None? { return ProbeFailed; }
      if !HasChanged(weather.probe.value, last) { return NotChanged; }
      if weather.fetch.None? { return FetchFailed; }
      var _ := store.SetSourceState(src.url, weather.fetch.value.state, weather.stateWrite);
      return if weather.fetch.value.feed.None? then ParseFailed else Synced;
    }

    /** The destination side: parse the feed through the connection's pipeline and reconcile. */
    method WriteDestination(i: nat, weather: Weather)
      returns (count: nat, created: nat, updated: nat, deleted: nat, ok: bool, ghost r: Round, ghost run: Run)
      requires Valid() && i < |cfg.destinations| && ConnectionsOf(cfg, hash)[i].known
      requires weather.fetch.Some? && weather.fetch.value.feed.Some?
      modifies store`mappings, server
      ensures r == RoundOf(weather, r.order, r.staleOrder)
      ensures var c, w := ConnectionsOf(cfg, hash)[i], old(World(store.mappings, server.resources));
              && Walks(w, PlanFor(c, r, encode), r.order, r.staleOrder)
              && run == Reconcile.SyncDestination(w, PlanFor(c, r, encode), r.order, r.staleOrder)
      ensures World(store.mappings, server.resources) == run.world && ok == run.ok
      ensures count == |PlanFor(ConnectionsOf(cfg, hash)[i], r, encode).events| && (ok ==> count == Handled(run.trace))
      ensures ok ==> created == CountOf(run.trace, Created) && updated == CountOf(run.trace, Updated)
                     && deleted == CountOf(run.trace, Tombstoned)
    {
      var d := cfg.destinations[i];
      var src := cfg.sources[sourceIndex[d.source]];
      var pipeline: TransformPipeline := pipelines[i];
      var comps := Decode(weather.fetch.value.feed.value);
      var events := ParseWithPipeline(comps, pipeline, encode);
      var t := Target(d.name, d.url, hash(src.url), cfg.sync.deleteMode == "hard");
      ghost var w := World(store.mappings, server.resources);
      ghost var order, staleOrder;
      created, updated, deleted, ok, order, staleOrder := SyncDestination(Plan(t, events, weather.faults));
      r := RoundOf(weather, order, staleOrder);
      run := Reconcile.SyncDestination(w, Plan(t, events, weather.faults), order, staleOrder);
      count := |events|;
      if ok {
        SuccessHandles(w, Plan(t, events, weather.faults), order, staleOrder);
      }
    }

    /** A connection's turn, source side then destination side. */
    method TakeTurn(i: nat, weather: Weather)
      returns (outcome: Outcome, count: nat, created: nat, updated: nat, deleted: nat, ghost r: Round, ghost v: Visit)
      requires Valid() && i < |cfg.destinations|
      modifies store, server
      ensures r == RoundOf(weather, r.order, r.staleOrder)
      ensures ValidRound(old(System()), ConnectionsOf(cfg, hash)[i], r, encode)
      ensures v == SyncConnection(old(System()), ConnectionsOf(cfg, hash)[i], r, encode)
      ensures System() == v.s && outcome == v.outcome
      ensures outcome == Synced ==> count == Handled(v.trace) && created == CountOf(v.trace, Created) && updated == CountOf(v.trace, Updated)
                                    && deleted == CountOf(v.trace, Tombstoned)
    {
      ghost var s0, c := System(), ConnectionsOf(cfg, hash)[i];
      r := RoundOf(weather, [], []);
      count, created, updated, deleted := 0, 0, 0, 0;
      outcome := ReadSource(i, weather);
      if outcome != Synced {
        v := SyncConnection(s0, c, r, encode);
        return;
      }
      var ok;
      ghost var run;
      count, created, updated, deleted, ok, r, run := WriteDestination(i, weather);
      ReachingTurn(s0, c, weather, r, run, encode);
      v := SyncConnection(s0, c, r, encode);
      if !ok {
        outcome := DestinationFailed;
      }
    }

    /** One turn of the loop of `Sync`, with its record in the statistics. */
    method VisitConnection(i: nat, weather: Weather) returns (outcome: Outcome, ghost r: Round)
      requires Valid() && i < |cfg.destinations|
      modifies `stats, store, server
      ensures r == RoundOf(weather, r.order, r.staleOrder)
      ensures ValidRound(old(System()), ConnectionsOf(cfg, hash)[i], r, encode)
      ensures var v := SyncConnection(old(System()), ConnectionsOf(cfg, hash)[i], r, encode);
              && System() == v.s && outcome == v.outcome
              && stats == Recorded(old(stats), ConnectionsOf(cfg, hash)[i].t.name, v)
    {
      var name := cfg.destinations[i].name;
      var count, created, updated, deleted;
      ghost var v;
      outcome, count, created, updated, deleted, r, v := TakeTurn(i, weather);
      Record(name, outcome, count, created, updated, deleted, v);
    }

    method Record(name: string, outcome: Outcome, count: nat, created: nat, updated: nat, deleted: nat, ghost v: Visit)
      requires outcome == v.outcome
      requires outcome == Synced ==> count == Handled(v.trace) && created == CountOf(v.trace, Created) && updated == CountOf(v.trace, Updated)
                                     && deleted == CountOf(v.trace, Tombstoned)
      modifies `stats
      ensures stats == Recorded(old(stats), name, v)
    {
      var st := StatsOf(stats, name);
      if outcome == Synced {
        stats := stats[name := Stats(st.events + count, st.created + created, st.updated + updated, st.deleted + deleted, st.errors)];
      } else if outcome != NotChanged {
        stats := stats[name := st.(errors := st.errors + 1)];
      }
    }

    /** The loop of `Sync`. */
    method VisitAll(weather: seq<Weather>) returns (ok: bool, ghost rs: seq<Round>, ghost vs: seq<Visit>)
      requires Valid() && |weather| == |cfg.destinations|
      modifies `stats, store, server
      ensures TurnsTaken(old(System()), ConnectionsOf(cfg, hash), rs, vs, System(), encode)
      ensures Reported(old(stats), ConnectionsOf(cfg, hash), vs, stats, ok)
    {
      ok, rs, vs := true, [], [];
      ghost var s0, cs := System(), ConnectionsOf(cfg, hash);
      assert cs[..0] == [];
      for i := 0 to |cfg.destinations|
        invariant Valid()
        invariant TurnsTaken(s0, cs[..i], rs, vs, System(), encode)
        invariant Reported(old(stats), cs[..i], vs, stats, ok)
      {
        var outcome;
        ghost var s1, stats1 := System(), stats;
        ghost var r;
        outcome, r := VisitConnection(i, weather[i]);
        NextTurn(s0, cs, i, rs, vs, s1, encode, r, old(stats), stats1, ok);
        rs, vs := rs + [r], vs + [SyncConnection(s1, cs[i], r, encode)];
        if outcome.Surfaces() { ok := false; }
      }
      assert cs[..|cs|] == cs;
    }

    /** One `Sync`. A call that finds another one running changes nothing; any other visits every connection in turn,
        gives the run lock back, and returns an error exactly if a visit's outcome surfaces. */
    method Sync(weather: seq<Weather>) returns (ok: bool, ghost rs: seq<Round>, ghost vs: seq<Visit>)
      requires Valid() && |weather| == |cfg.destinations|
      modifies `stats, `running, store, server
      ensures Valid()
      ensures old(running) ==> ok && running && System() == old(System()) && stats == old(stats)
      ensures !old(running) ==>
                && !running
                && TurnsTaken(old(System()), ConnectionsOf(cfg, hash), rs, vs, System(), encode)
                && Reported(old(stats), ConnectionsOf(cfg, hash), vs, stats, ok)
                && (ok <==> forall v <- vs :: v.outcome in {NotChanged, Synced, DestinationFailed})
      ensures Permits(cfg, old(System()), System())
    {
      ok, rs, vs := true, [], [];
      PermitsNothing(cfg, System());
      if running { return; }
      running := true;
      ghost var s0 := System();
      ok, rs, vs := VisitAll(weather);
      running := false;
      SyncPermitted(cfg, hash, s0, rs, encode);
      SurfacingIs(vs);
    }
  }

  lemma ReachingTurn(s: SyncLoop.System, c: Connection, weather: Weather, r: Round, run: Run, encode: Comp -> Option<string>)
    requires var r0 := RoundOf(weather, [], []); SourceSide(c, r0, LastState(s, c, r0)) == Synced
    requires r == RoundOf(weather, r.order, r.staleOrder) && Walks(s.w, PlanFor(c, r, encode), r.order, r.staleOrder)
    requires run == Reconcile.SyncDestination(s.w, PlanFor(c, r, encode), r.order, r.staleOrder)
    ensures ValidRound(s, c, r, encode)
    ensures SyncConnection(s, c, r, encode) ==
            Visit(SyncLoop.System(run.world, StatesAfter(s, c, RoundOf(weather, [], []))),
                  if run.ok then Synced else DestinationFailed, run.trace)
  {
  }

  lemma {:induction false} SyncAllSnoc(s: SyncLoop.System, cs: seq<Connection>, rs: seq<Round>, c: Connection, r: Round, encode: Comp -> Option<string>)
    requires ValidRounds(s, cs, rs, encode) && ValidRound(SystemAfter(s, SyncAll(s, cs, rs, encode)), c, r, encode)
    ensures ValidRounds(s, cs + [c], rs + [r], encode)
    ensures var vs := SyncAll(s, cs, rs, encode);
            SyncAll(s, cs + [c], rs + [r], encode) == vs + [SyncConnection(SystemAfter(s, vs), c, r, encode)]
    decreases |cs|
  {
    var cs', rs' := cs + [c], rs + [r];
    if cs == [] {
      assert cs'[1..] == [] && rs'[1..] == [];
    } else {
      assert cs'[1..] == cs[1..] + [c] && rs'[1..] == rs[1..] + [r] && cs'[0] == cs[0] && rs'[0] == rs[0];
      AfterRest(s, cs, rs, encode);
      SyncAllSnoc(SyncConnection(s, cs[0], rs[0], encode).s, cs[1..], rs[1..], c, r, encode);
    }
  }

  /** The first turns of a `Sync`. */
  ghost predicate TurnsTaken(s: SyncLoop.System, cs: seq<Connection>, rs: seq<Round>, vs: seq<Visit>, end: SyncLoop.System, encode: Comp -> Option<string>) {
    ValidRounds(s, cs, rs, encode) && vs == SyncAll(s, cs, rs, encode) && end == SystemAfter(s, vs)
  }

  lemma TurnTaken(s: SyncLoop.System, cs: seq<Connection>, rs: seq<Round>, vs: seq<Visit>, end: SyncLoop.System, encode: Comp -> Option<string>,
                 c: Connection, r: Round)
    requires TurnsTaken(s, cs, rs, vs, end, encode) && ValidRound(end, c, r, encode)
    ensures var v := SyncConnection(end, c, r, encode);
            TurnsTaken(s, cs + [c], rs + [r], vs + [v], v.s, encode)
  {
    SyncAllSnoc(s, cs, rs, c, r, encode);
  }

  /** What the visits leave in the statistics, and what `Sync` returns after them. */
  ghost predicate Reported(before: map<string, Stats>, cs: seq<Connection>, vs: seq<Visit>, after: map<string, Stats>, ok: bool) {
    && |cs| == |vs| && after == RecordedAll(before, cs, vs)
    && (ok <==> forall i :: 0 <= i < |vs| ==> !vs[i].outcome.Surfaces())
  }

  lemma ReportedSnoc(before: map<string, Stats>, cs: seq<Connection>, vs: seq<Visit>, after: map<string, Stats>, ok: bool, c: Connection, v: Visit)
    requires Reported(before, cs, vs, after, ok)
    ensures Reported(before, cs + [c], vs + [v], Recorded(after, c.t.name, v), ok && !v.outcome.Surfaces())
  {
    assert (cs + [c])[..|cs|] == cs && (vs + [v])[..|vs|] == vs;
    assert (vs + [v])[|vs|] == v && forall i :: 0 <= i < |vs| ==> (vs + [v])[i] == vs[i];
  }

  lemma NextTurn(s: SyncLoop.System, cs: seq<Connection>, i: nat, rs: seq<Round>, vs: seq<Visit>, end: SyncLoop.System,
                 encode: Comp -> Option<string>, r: Round, before: map<string, Stats>, after: map<string, Stats>, ok: bool)
    requires i < |cs| && TurnsTaken(s, cs[..i], rs, vs, end, encode) && ValidRound(end, cs[i], r, encode)
    requires Reported(before, cs[..i], vs, after, ok)
    ensures var v := SyncConnection(end, cs[i], r, encode);
            && TurnsTaken(s, cs[..i + 1], rs + [r], vs + [v], v.s, encode)
            && Reported(before, cs[..i + 1], vs + [v], Recorded(after, cs[i].t.name, v), ok && !v.outcome.Surfaces())
  {
    assert cs[..i + 1] == cs[..i] + [cs[i]];
    TurnTaken(s, cs[..i], rs, vs, end, encode, cs[i], r);
    ReportedSnoc(before, cs[..i], vs, after, ok, cs[i], SyncConnection(end, cs[i], r, encode));
  }

  lemma {:induction false} EventsNeverTombstone(w: World, p: Plan, order: seq<string>, listed: map<string, Digest>)
    requires forall u <- order :: u in p.events
    ensures CountOf(EventLoop(w, p, order, listed).trace, Tombstoned) == 0
    decreases |order|
  {
    if order != [] {
      var (w', v) := EventStep(w, p.t, order[0], p.events[order[0]], listed, p.faults.event(order[0]));
      EventsNeverTombstone(w', p, order[1..], listed);
      assert [Entry(order[0], v)][1..] == [];
      CountOfConcat([Entry(order[0], v)], EventLoop(w', p, order[1..], listed).trace, Tombstoned);
    }
  }

  lemma {:induction false} StaleNeverCreates(w: World, p: Plan, order: seq<string>, listed: map<string, Digest>)
    requires forall u <- order :: u in listed
    ensures CountOf(StaleLoop(w, p, order, listed).trace, Created) == 0
    ensures CountOf(StaleLoop(w, p, order, listed).trace, Updated) == 0
    ensures CountOf(StaleLoop(w, p, order, listed).trace, Unchanged) == 0
    decreases |order|
  {
    if order != [] {
      var (w', v) := StaleStep(w, p.t, order[0], listed[order[0]], p.faults.stale(order[0]));
      StaleNeverCreates(w, p, order[1..], listed);
      StaleNeverCreates(w', p, order[1..], listed);
      assert [Entry(order[0], v)][1..] == [];
      CountOfConcat([Entry(order[0], v)], StaleLoop(w', p, order[1..], listed).trace, Created);
      CountOfConcat([Entry(order[0], v)], StaleLoop(w', p, order[1..], listed).trace, Updated);
      CountOfConcat([Entry(order[0], v)], StaleLoop(w', p, order[1..], listed).trace, Unchanged);
    }
  }

  lemma {:induction false} EventLoopHandles(w: World, p: Plan, order: seq<string>, listed: map<string, Digest>)
    requires (forall u <- order :: u in p.events) && EventLoop(w, p, order, listed).ok
    ensures Handled(EventLoop(w, p, order, listed).trace) == |order|
    decreases |order|
  {
    if order != [] {
      var (w', v) := EventStep(w, p.t, order[0], p.events[order[0]], listed, p.faults.event(order[0]));
      assert v in {Created, Updated, Unchanged};
      EventLoopHandles(w', p, order[1..], listed);
      var e, rest := Entry(order[0], v), EventLoop(w', p, order[1..], listed).trace;
      assert ([e] + rest)[1..] == rest;
    }
  }

  lemma {:induction false} EnumeratesCard(order: seq<string>, keys: set<string>)
    requires Enumerates(order, keys)
    ensures |order| == |keys|
  {
    if order == [] {
      assert keys == {};
    } else {
      EnumeratesCard(order[1..], keys - {order[0]});
    }
  }

  /** A successful run accounts for every event once. */
  lemma SuccessHandles(w: World, p: Plan, order: seq<string>, staleOrder: seq<string>)
    requires Walks(w, p, order, staleOrder) && Reconcile.SyncDestination(w, p, order, staleOrder).ok
    ensures Handled(Reconcile.SyncDestination(w, p, order, staleOrder).trace) == |p.events|
  {
    var listed := ListedBy(w, p);
    var r1 := EventLoop(w, p, order, listed);
    var r2 := StaleLoop(r1.world, p, staleOrder, listed);
    EventLoopHandles(w, p, order, listed);
    EnumeratesCard(order, p.events.Keys);
    StaleNeverCreates(r1.world, p, staleOrder, listed);
    CountOfConcat(r1.trace, r2.trace, Created);
    CountOfConcat(r1.trace, r2.trace, Updated);
    CountOfConcat(r1.trace, r2.trace, Unchanged);
    assert |p.events| == |p.events.Keys|;
  }
}
