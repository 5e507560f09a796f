/** One `Sync`: the loop over all connections, with the order in which each
    connection reads the source, saves the source state and writes the destination. */
module SyncLoop {
  import opened Text
  import opened Records
  import opened Storage
  import opened Remote
  import opened Reconcile
  import opened Pipeline
  import opened Feed

  /** One destination with its source. `known` says that the configured source name exists. */
  datatype Connection = Connection(t: Target, url: string, trs: seq<Transformer>, known: bool)

  /** The database and the calendars. */
  datatype System = System(w: World, states: map<string, CalendarState>)

  /** What a fetch brings: the calendar's components, if it decodes, and the state it was in. */
  datatype Fetched = Fetched(feed: Option<seq<Comp>>, state: CalendarState)

  /** Everything a connection meets in one `Sync`. */
  datatype Round = Round(stateReadable: bool, probe: Option<CalendarState>, fetch: Option<Fetched>, stateWrite: Fate,
                         faults: Faults, order: seq<string>, staleOrder: seq<string>)

  datatype Outcome = UnknownSource | ProbeFailed | NotChanged | FetchFailed | ParseFailed | DestinationFailed | Synced {
    /** `Sync` returns an error for these. A failed destination is only recorded in the statistics. */
    predicate Surfaces() { UnknownSource? || ProbeFailed? || FetchFailed? || ParseFailed? }
  }

  /** The token comparison of `HasChanged`. */
  predicate HasChanged(cur: CalendarState, last: CalendarState) {
    || (cur.ctag != "" && cur.ctag != last.ctag)
    || (cur.syncToken != "" && cur.syncToken != last.syncToken)
    || (cur.etag != "" && cur.etag != last.etag)
    || (cur == NO_STATE && last == NO_STATE)
  }

  function LastState(s: System, c: Connection, r: Round): CalendarState {
    if r.stateReadable && c.url in s.states then s.states[c.url] else NO_STATE
  }

  /** How a connection fares with its source, given the state saved for it; `Synced` if it gets to its destination. */
  function SourceSide(c: Connection, r: Round, last: CalendarState): Outcome {
    if !c.known then UnknownSource
    else if r.probe.None? then ProbeFailed
    else if !HasChanged(r.probe.value, last) then NotChanged
    else if r.fetch.None? then FetchFailed
    else if r.fetch.value.feed.None? then ParseFailed
    else Synced
  }

  /** The connection finds its source changed and fetches it. */
  predicate Fetches(s: System, c: Connection, r: Round) {
    SourceSide(c, r, LastState(s, c, r)) in {ParseFailed, Synced}
  }

  predicate ReachesDestination(s: System, c: Connection, r: Round) {
    SourceSide(c, r, LastState(s, c, r)) == Synced
  }

  function PlanFor(c: Connection, r: Round, encode: Comp -> Option<string>): Plan
    requires r.fetch.Some? && r.fetch.value.feed.Some?
  {
    Plan(c.t, ParseEvents(r.fetch.value.feed.value, c.trs, encode), r.faults)
  }

  ghost predicate ValidRound(s: System, c: Connection, r: Round, encode: Comp -> Option<string>) {
    ReachesDestination(s, c, r) ==> Walks(s.w, PlanFor(c, r, encode), r.order, r.staleOrder)
  }

  datatype Visit = Visit(s: System, outcome: Outcome, trace: seq<Entry>)

  /** The fetched state is saved before the feed is parsed, and before the destination is written. */
  function StatesAfter(s: System, c: Connection, r: Round): map<string, CalendarState> {
    if Fetches(s, c, r) && r.stateWrite.TakesEffect() then s.states[c.url := r.fetch.value.state] else s.states
  }

  function SyncConnection(s: System, c: Connection, r: Round, encode: Comp -> Option<string>): Visit
    requires ValidRound(s, c, r, encode)
  {
    var states := StatesAfter(s, c, r);
    if !ReachesDestination(s, c, r) then Visit(System(s.w, states), SourceSide(c, r, LastState(s, c, r)), [])
    else
      var run := SyncDestination(s.w, PlanFor(c, r, encode), r.order, r.staleOrder);
      Visit(System(run.world, states), if run.ok then Synced else DestinationFailed, run.trace)
  }

  /** How a turn comes out, step by step: an unreadable saved state counts as none, and the first failure decides. */
  lemma OutcomeIs(s: System, c: Connection, r: Round, encode: Comp -> Option<string>)
    requires ValidRound(s, c, r, encode)
    ensures var outcome := SyncConnection(s, c, r, encode).outcome;
            var last := if r.stateReadable && c.url in s.states then s.states[c.url] else CalendarState("", "", "");
            && (outcome == UnknownSource <==> !c.known)
            && (outcome == ProbeFailed <==> c.known && r.probe.None?)
            && (outcome == NotChanged <==> c.known && r.probe.Some? && !HasChanged(r.probe.value, last))
            && (outcome == FetchFailed <==> c.known && r.probe.Some? && HasChanged(r.probe.value, last) && r.fetch.None?)
            && (outcome == ParseFailed <==>
                  c.known && r.probe.Some? && HasChanged(r.probe.value, last) && r.fetch.Some? && r.fetch.value.feed.None?)
  {
  }

  /** What a turn leaves alone, by its outcome. */
  lemma OutcomeSpares(s: System, c: Connection, r: Round, encode: Comp -> Option<string>)
    requires ValidRound(s, c, r, encode)
    ensures var v := SyncConnection(s, c, r, encode);
            && (v.outcome in {UnknownSource, ProbeFailed, NotChanged, FetchFailed} ==> v.s == s)
            && (v.outcome == ParseFailed ==> v.s.w == s.w)
            && (v.outcome in {ParseFailed, DestinationFailed, Synced} ==>
                  r.fetch.Some? && v.s.states == if r.stateWrite.Refused? then s.states else s.states[c.url := r.fetch.value.state])
  {
  }

  ghost predicate ValidRounds(s: System, cs: seq<Connection>, rs: seq<Round>, encode: Comp -> Option<string>)
    decreases |cs|
  {
    |rs| == |cs| &&
    (cs == [] || (ValidRound(s, cs[0], rs[0], encode)
                  && ValidRounds(SyncConnection(s, cs[0], rs[0], encode).s, cs[1..], rs[1..], encode)))
  }

  /** The visits of one `Sync`, in order. An error in one connection does not keep the others from their turn. */
  ghost function SyncAll(s: System, cs: seq<Connection>, rs: seq<Round>, encode: Comp -> Option<string>): (vs: seq<Visit>)
    requires ValidRounds(s, cs, rs, encode)
    ensures |vs| == |cs|
    decreases |cs|
  {
    if cs == [] then []
    else var v := SyncConnection(s, cs[0], rs[0], encode); [v] + SyncAll(v.s, cs[1..], rs[1..], encode)
  }

  ghost function SystemAfter(s: System, vs: seq<Visit>): System {
    if vs == [] then s else vs[|vs| - 1].s
  }

  // ---------------------------------------------------------------- what a run depends on

  /** The worlds agree on one destination's rows and on the resources that `h` picks. */
  ghost predicate Alike(w1: World, w2: World, name: string, h: string -> bool) {
    && (forall u: string :: Get(w1.rows, Key(u, name)) == Get(w2.rows, Key(u, name)))
    && (forall x: string :: h(x) ==> Get(w1.remote, x) == Get(w2.remote, x))
  }

  lemma SameLookup(w1: World, w2: World, u: string, name: string)
    requires Get(w1.rows, Key(u, name)) == Get(w2.rows, Key(u, name))
    ensures Lookup(w1.rows, u, name) == Lookup(w2.rows, u, name)
  {
  }

  lemma PutAlike(w1: World, w2: World, name: string, h: string -> bool, href: string, data: Content, fate: Fate)
    requires Alike(w1, w2, name, h)
    ensures Alike(w1.(remote := Put(w1.remote, href, data, fate)), w2.(remote := Put(w2.remote, href, data, fate)), name, h)
    ensures Alike(w1.(remote := Delete(w1.remote, href, fate)), w2.(remote := Delete(w2.remote, href, fate)), name, h)
  {
    forall x: string | h(x)
      ensures Get(Put(w1.remote, href, data, fate), x) == Get(Put(w2.remote, href, data, fate), x)
      ensures Get(Delete(w1.remote, href, fate), x) == Get(Delete(w2.remote, href, fate), x)
    {
      assert Get(w1.remote, x) == Get(w2.remote, x);
    }
  }

  lemma RowAlike(w1: World, w2: World, name: string, h: string -> bool, u: string, row: Row)
    requires Alike(w1, w2, name, h)
    ensures Alike(w1.(rows := w1.rows[Key(u, name) := row]), w2.(rows := w2.rows[Key(u, name) := row]), name, h)
  {
    forall x: string ensures Get(w1.rows[Key(u, name) := row], Key(x, name)) == Get(w2.rows[Key(u, name) := row], Key(x, name)) {
      assert Get(w1.rows, Key(x, name)) == Get(w2.rows, Key(x, name));
    }
  }

  lemma EventStepAlike(w1: World, w2: World, t: Target, u: string, data: Content, listed: map<string, Digest>, f: UidFates, h: string -> bool)
    requires Alike(w1, w2, t.name, h)
    ensures var (w1', v1) := EventStep(w1, t, u, data, listed, f);
            var (w2', v2) := EventStep(w2, t, u, data, listed, f);
            v1 == v2 && Alike(w1', w2', t.name, h)
  {
    SameLookup(w1, w2, u, t.name);
    var m := Lookup(w1.rows, u, t.name);
    var isNew := m.destUid == "";
    var href := if isNew then HrefFor(t.base, data.uid) else m.href;
    var row := Row(if isNew then u else m.destUid, href, "", HashContent(data), false);
    PutAlike(w1, w2, t.name, h, href, data, f.call);
    RowAlike(w1.(remote := Put(w1.remote, href, data, f.call)), w2.(remote := Put(w2.remote, href, data, f.call)), t.name, h, u, row);
  }

  lemma StaleStepAlike(w1: World, w2: World, t: Target, u: string, hash: Digest, f: UidFates, h: string -> bool)
    requires Alike(w1, w2, t.name, h)
    ensures var (w1', v1) := StaleStep(w1, t, u, hash, f);
            var (w2', v2) := StaleStep(w2, t, u, hash, f);
            v1 == v2 && Alike(w1', w2', t.name, h)
  {
    SameLookup(w1, w2, u, t.name);
    var m := Lookup(w1.rows, u, t.name);
    var row := Row(m.destUid, m.href, m.etag, hash, true);
    PutAlike(w1, w2, t.name, h, m.href, Content("", ""), f.call);
    RowAlike(w1, w2, t.name, h, u, row);
    RowAlike(w1.(remote := Delete(w1.remote, m.href, f.call)), w2.(remote := Delete(w2.remote, m.href, f.call)), t.name, h, u, row);
  }

  lemma {:induction false} EventLoopAlike(w1: World, w2: World, p: Plan, order: seq<string>, listed: map<string, Digest>, h: string -> bool)
    requires Alike(w1, w2, p.t.name, h) && forall u <- order :: u in p.events
    ensures var r1, r2 := EventLoop(w1, p, order, listed), EventLoop(w2, p, order, listed);
            r1.trace == r2.trace && r1.ok == r2.ok && Alike(r1.world, r2.world, p.t.name, h)
    decreases |order|
  {
    if order != [] {
      var u := order[0];
      EventStepAlike(w1, w2, p.t, u, p.events[u], listed, p.faults.event(u), h);
      var w1' := EventStep(w1, p.t, u, p.events[u], listed, p.faults.event(u)).0;
      var w2' := EventStep(w2, p.t, u, p.events[u], listed, p.faults.event(u)).0;
      EventLoopAlike(w1', w2', p, order[1..], listed, h);
    }
  }

  lemma {:induction false} StaleLoopAlike(w1: World, w2: World, p: Plan, order: seq<string>, listed: map<string, Digest>, h: string -> bool)
    requires Alike(w1, w2, p.t.name, h) && forall u <- order :: u in listed
    ensures var r1, r2 := StaleLoop(w1, p, order, listed), StaleLoop(w2, p, order, listed);
            r1.trace == r2.trace && r1.ok == r2.ok && Alike(r1.world, r2.world, p.t.name, h)
    decreases |order|
  {
    if order != [] {
      var u := order[0];
      if u in p.events {
        StaleLoopAlike(w1, w2, p, order[1..], listed, h);
      } else {
        StaleStepAlike(w1, w2, p.t, u, listed[u], p.faults.stale(u), h);
        var w1' := StaleStep(w1, p.t, u, listed[u], p.faults.stale(u)).0;
        var w2' := StaleStep(w2, p.t, u, listed[u], p.faults.stale(u)).0;
        StaleLoopAlike(w1', w2', p, order[1..], listed, h);
      }
    }
  }

  lemma ListedAlike(w1: World, w2: World, p: Plan, h: string -> bool)
    requires Alike(w1, w2, p.t.name, h)
    ensures ListedBy(w1, p) == ListedBy(w2, p)
  {
    var m1, m2 := ActiveMappings(w1.rows, p.t.name, p.t.prefix), ActiveMappings(w2.rows, p.t.name, p.t.prefix);
    forall u: string ensures Get(m1, u) == Get(m2, u) {
      ActiveMappingsAt(w1.rows, p.t.name, p.t.prefix, u);
      ActiveMappingsAt(w2.rows, p.t.name, p.t.prefix, u);
      assert Get(w1.rows, Key(u, p.t.name)) == Get(w2.rows, Key(u, p.t.name));
    }
    SameMap(m1, m2);
  }

  /** A run depends on its destination's rows only, and keeps any agreement about resources. */
  lemma RunAlike(w1: World, w2: World, p: Plan, order: seq<string>, staleOrder: seq<string>, h: string -> bool)
    requires Alike(w1, w2, p.t.name, h) && Walks(w1, p, order, staleOrder)
    ensures Walks(w2, p, order, staleOrder)
    ensures var r1, r2 := SyncDestination(w1, p, order, staleOrder), SyncDestination(w2, p, order, staleOrder);
            r1.trace == r2.trace && r1.ok == r2.ok && Alike(r1.world, r2.world, p.t.name, h)
  {
    ListedAlike(w1, w2, p, h);
    var listed := ListedBy(w1, p);
    EventLoopAlike(w1, w2, p, order, listed, h);
    StaleLoopAlike(EventLoop(w1, p, order, listed).world, EventLoop(w2, p, order, listed).world, p, staleOrder, listed, h);
  }
}
