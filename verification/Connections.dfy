/** How the connections of one `Sync` bear on each other, and on the next `Sync`. */
module Connections {
  import opened Text
  import opened Records
  import opened Reconcile
  import opened Pointwise
  import opened Pipeline
  import opened Feed
  import opened SyncLoop

  // ---------------------------------------------------------------- views

  /** A resource that stands in this very collection. */
  predicate Member(url: string, h: string) {
    Collection(url) <= h && '/' !in h[|Collection(url)|..]
  }

  /** The resources a connection can own: those of its collection whose UID its source's prefix selects. */
  predicate Owns(c: Connection, h: string) {
    h == HrefFor(c.t.base, UidOfHref(c.t.base, h)) && Selected(UidOfHref(c.t.base, h), c.t.prefix)
  }

  /** The resources a connection can own or read. */
  function Footprint(c: Connection): string -> bool {
    h => Owns(c, h) || Member(c.url, h)
  }

  /** What a source has in store: the resources in its collection. */
  function SourceView(remote: map<string, Content>, url: string): map<string, Content> {
    map h | h in remote && Member(url, h) :: remote[h]
  }

  /** An address in a collection is derived from that collection's URL. */
  lemma MemberIs(url: string, base: string, u: string)
    requires Member(url, HrefFor(base, u))
    ensures Collection(url) == Collection(base)
  {
    var h, n := HrefFor(base, u), |Collection(url)|;
    EscapeHasNoSlash(u);
    assert h == Collection(url) + h[n..] && h == Collection(base) + (PathEscape(u) + ".ics");
    SplitAtLastSlash(Collection(url), h[n..], Collection(base), PathEscape(u) + ".ics");
  }

  /** The systems look the same to a connection: its rows, its resources and its source's, its source's state. */
  ghost predicate SameView(c: Connection, s1: System, s2: System) {
    Alike(s1.w, s2.w, c.t.name, Footprint(c)) && Get(s1.states, c.url) == Get(s2.states, c.url)
  }

  lemma SameViewTrans(c: Connection, s1: System, s2: System, s3: System)
    requires SameView(c, s1, s2) && SameView(c, s2, s3)
    ensures SameView(c, s1, s3) && SameView(c, s2, s1)
  {
    forall u: string ensures Get(s1.w.rows, Key(u, c.t.name)) == Get(s3.w.rows, Key(u, c.t.name)) {
      assert Get(s1.w.rows, Key(u, c.t.name)) == Get(s2.w.rows, Key(u, c.t.name));
    }
    forall x: string | Footprint(c)(x) ensures Get(s1.w.remote, x) == Get(s3.w.remote, x) {
      assert Get(s1.w.remote, x) == Get(s2.w.remote, x);
    }
  }

  ghost function RunFor(w: World, c: Connection, r: Round, encode: Comp -> Option<string>): Run
    requires r.fetch.Some? && r.fetch.value.feed.Some? && Walks(w, PlanFor(c, r, encode), r.order, r.staleOrder)
  {
    SyncDestination(w, PlanFor(c, r, encode), r.order, r.staleOrder)
  }

  lemma ReachingAlike(c: Connection, r: Round, s1: System, s2: System, encode: Comp -> Option<string>)
    requires Alike(s1.w, s2.w, c.t.name, Footprint(c)) && LastState(s1, c, r) == LastState(s2, c, r)
    requires ReachesDestination(s1, c, r) && ValidRound(s1, c, r, encode)
    ensures ValidRound(s2, c, r, encode)
    ensures var v1, v2 := SyncConnection(s1, c, r, encode), SyncConnection(s2, c, r, encode);
            v1.outcome == v2.outcome && v1.trace == v2.trace && Alike(v1.s.w, v2.s.w, c.t.name, Footprint(c))
  {
    RunAlike(s1.w, s2.w, PlanFor(c, r, encode), r.order, r.staleOrder, Footprint(c));
  }

  lemma StatesAlike(c: Connection, r: Round, s1: System, s2: System)
    requires Get(s1.states, c.url) == Get(s2.states, c.url)
    ensures LastState(s1, c, r) == LastState(s2, c, r)
    ensures Get(StatesAfter(s1, c, r), c.url) == Get(StatesAfter(s2, c, r), c.url)
  {
  }

  /** Given what the source answers, a visit depends on the connection's own view only. */
  lemma RoundAlike(c: Connection, r: Round, s1: System, s2: System, encode: Comp -> Option<string>)
    requires SameView(c, s1, s2) && ValidRound(s1, c, r, encode)
    ensures ValidRound(s2, c, r, encode)
    ensures var v1, v2 := SyncConnection(s1, c, r, encode), SyncConnection(s2, c, r, encode);
            v1.outcome == v2.outcome && v1.trace == v2.trace && SameView(c, v1.s, v2.s)
  {
    StatesAlike(c, r, s1, s2);
    if ReachesDestination(s1, c, r) {
      ReachingAlike(c, r, s1, s2, encode);
    }
  }

  // ---------------------------------------------------------------- independence

  /** Different destinations, different sources, neither the source of one the destination of the other, and no resource that both
      could own. */
  ghost predicate Independent(c: Connection, d: Connection) {
    && c.t.name != d.t.name && c.url != d.url
    && Collection(c.t.base) != Collection(d.url) && Collection(d.t.base) != Collection(c.url)
    && (Collection(c.t.base) != Collection(d.t.base)
        || forall u: string :: !(Selected(u, c.t.prefix) && Selected(u, d.t.prefix)))
  }

  /** Source prefixes are words of one length; when they differ by more than case, a shared collection is no obstacle. */
  lemma DistinctPrefixesSuffice(c: Connection, d: Connection)
    requires c.t.name != d.t.name && c.url != d.url
    requires Collection(c.t.base) != Collection(d.url) && Collection(d.t.base) != Collection(c.url)
    requires NoWildcard(c.t.prefix) && NoWildcard(d.t.prefix) && |c.t.prefix| == |d.t.prefix| && c.t.prefix != ""
    requires ToLower(c.t.prefix) != ToLower(d.t.prefix)
    ensures Independent(c, d)
  {
    PrefixesSeparate(c.t.prefix, d.t.prefix);
  }

  /** The pipeline ends with the source's own prefix on every UID. */
  ghost predicate Prefixed(c: Connection) {
    LastPrefix(c.trs) == Some(c.t.prefix) && NoWildcard(c.t.prefix)
  }

  lemma DueIsSelected(w: World, d: Connection, r: Round, encode: Comp -> Option<string>, u: string)
    requires r.fetch.Some? && r.fetch.value.feed.Some? && Prefixed(d)
    requires u in Due(w, PlanFor(d, r, encode))
    ensures Selected(u, d.t.prefix)
  {
    if u in PlanFor(d, r, encode).events {
      ParsedCarry(r.fetch.value.feed.value, d.trs, encode, d.t.prefix, u);
    } else {
      ListedHasRow(w, PlanFor(d, r, encode), u);
    }
  }

  lemma RunSparesResource(w: World, d: Connection, r: Round, encode: Comp -> Option<string>, c: Connection, h: string)
    requires Independent(c, d) && Prefixed(d) && ProperRows(w.rows, d.t)
    requires r.fetch.Some? && r.fetch.value.feed.Some? && Walks(w, PlanFor(d, r, encode), r.order, r.staleOrder)
    requires Footprint(c)(h)
    ensures Get(RunFor(w, d, r, encode).world.remote, h) == Get(w.remote, h)
  {
    var p := PlanFor(d, r, encode);
    var run := SyncDestination(w, p, r.order, r.staleOrder);
    ParsedIsProper(r.fetch.value.feed.value, d.trs, encode);
    if p.faults.listing.Rows? {
      RunFollows(w, p, r.order, r.staleOrder);
      var u := UidOfHref(d.t.base, h);
      if h == HrefFor(d.t.base, u) {
        assert Owns(c, h) by {
          if Member(c.url, h) { MemberIs(c.url, d.t.base, u); }
        }
        HrefInjective(c.t.base, UidOfHref(c.t.base, h), d.t.base, u);
        if u in Uids(run.trace) {
          DueIsSelected(w, d, r, encode, u);
        }
        assert CellAt(run.world, d.t, u) == CellAt(w, d.t, u);
      }
    }
  }

  lemma RunSparesRow(w: World, d: Connection, r: Round, encode: Comp -> Option<string>, k: Key)
    requires ProperRows(w.rows, d.t) && k.dest != d.t.name
    requires r.fetch.Some? && r.fetch.value.feed.Some? && Walks(w, PlanFor(d, r, encode), r.order, r.staleOrder)
    ensures var w' := RunFor(w, d, r, encode).world;
            Get(w'.rows, k) == Get(w.rows, k) && ProperRows(w'.rows, d.t)
  {
    var p := PlanFor(d, r, encode);
    ParsedIsProper(r.fetch.value.feed.value, d.trs, encode);
    if p.faults.listing.Rows? {
      RunFollows(w, p, r.order, r.staleOrder);
    }
  }

  lemma RunSparesView(w: World, d: Connection, r: Round, encode: Comp -> Option<string>, c: Connection)
    requires Independent(c, d) && Prefixed(d) && ProperRows(w.rows, d.t)
    requires r.fetch.Some? && r.fetch.value.feed.Some? && Walks(w, PlanFor(d, r, encode), r.order, r.staleOrder)
    ensures Alike(w, RunFor(w, d, r, encode).world, c.t.name, Footprint(c))
  {
    var w' := RunFor(w, d, r, encode).world;
    forall u: string ensures Get(w.rows, Key(u, c.t.name)) == Get(w'.rows, Key(u, c.t.name)) {
      RunSparesRow(w, d, r, encode, Key(u, c.t.name));
    }
    forall h: string | Footprint(c)(h) ensures Get(w.remote, h) == Get(w'.remote, h) {
      RunSparesResource(w, d, r, encode, c, h);
    }
  }

  /** A visit leaves the view of an independent connection as it was. */
  lemma VisitSpares(s: System, d: Connection, r: Round, encode: Comp -> Option<string>, c: Connection)
    requires Independent(c, d) && Prefixed(d) && ProperRows(s.w.rows, d.t) && ValidRound(s, d, r, encode)
    ensures SameView(c, s, SyncConnection(s, d, r, encode).s)
  {
    assert Get(StatesAfter(s, d, r), c.url) == Get(s.states, c.url);
    if ReachesDestination(s, d, r) {
      RunSparesView(s.w, d, r, encode, c);
    }
  }

  lemma RunKeepsProper(w: World, d: Connection, r: Round, encode: Comp -> Option<string>, t: Target)
    requires ProperRows(w.rows, d.t) && ProperRows(w.rows, t) && (t.name != d.t.name || t == d.t)
    requires r.fetch.Some? && r.fetch.value.feed.Some? && Walks(w, PlanFor(d, r, encode), r.order, r.staleOrder)
    ensures ProperRows(RunFor(w, d, r, encode).world.rows, t)
  {
    var rows := RunFor(w, d, r, encode).world.rows;
    RunSparesRow(w, d, r, encode, Key("", d.t.name + "x"));
    if t.name != d.t.name {
      forall k <- rows | k.dest == t.name ensures ProperRow(t, k.uid, rows[k]) {
        RunSparesRow(w, d, r, encode, k);
        assert Get(rows, k) == Get(w.rows, k);
      }
    }
  }

  lemma VisitKeepsProper(s: System, d: Connection, r: Round, encode: Comp -> Option<string>, t: Target)
    requires ProperRows(s.w.rows, d.t) && ProperRows(s.w.rows, t) && ValidRound(s, d, r, encode)
    requires t.name != d.t.name || t == d.t
    ensures ProperRows(SyncConnection(s, d, r, encode).s.w.rows, t)
  {
    if ReachesDestination(s, d, r) {
      RunKeepsProper(s.w, d, r, encode, t);
    }
  }

  ghost predicate AllProper(s: System, cs: seq<Connection>) {
    forall c <- cs :: ProperRows(s.w.rows, c.t) && Prefixed(c)
  }

  ghost predicate PairwiseIndependent(cs: seq<Connection>) {
    forall i, j :: 0 <= i < |cs| && 0 <= j < |cs| && i != j ==> Independent(cs[i], cs[j])
  }

  lemma RestIsProper(s: System, cs: seq<Connection>, rs: seq<Round>, encode: Comp -> Option<string>)
    requires ValidRounds(s, cs, rs, encode) && AllProper(s, cs) && PairwiseIndependent(cs) && cs != []
    ensures AllProper(SyncConnection(s, cs[0], rs[0], encode).s, cs[1..]) && PairwiseIndependent(cs[1..])
  {
    forall c <- cs[1..] ensures ProperRows(SyncConnection(s, cs[0], rs[0], encode).s.w.rows, c.t) && Prefixed(c) {
      var i :| 1 <= i < |cs| && cs[i] == c;
      assert Independent(cs[i], cs[0]);
      VisitKeepsProper(s, cs[0], rs[0], encode, c.t);
    }
  }

  lemma AfterRest(s: System, cs: seq<Connection>, rs: seq<Round>, encode: Comp -> Option<string>)
    requires ValidRounds(s, cs, rs, encode) && cs != []
    ensures var v := SyncConnection(s, cs[0], rs[0], encode);
            var vs, rest := SyncAll(s, cs, rs, encode), SyncAll(v.s, cs[1..], rs[1..], encode);
            && vs[0] == v && SystemAfter(s, vs) == SystemAfter(v.s, rest)
            && forall j :: 0 < j < |cs| ==> vs[j] == rest[j - 1]
  {
  }

  lemma {:induction false} AllSpare(s: System, cs: seq<Connection>, rs: seq<Round>, encode: Comp -> Option<string>, c: Connection)
    requires ValidRounds(s, cs, rs, encode) && AllProper(s, cs) && PairwiseIndependent(cs)
    requires forall d <- cs :: Independent(c, d)
    ensures SameView(c, s, SystemAfter(s, SyncAll(s, cs, rs, encode)))
    decreases |cs|
  {
    if cs != [] {
      var s' := SyncConnection(s, cs[0], rs[0], encode).s;
      VisitSpares(s, cs[0], rs[0], encode, c);
      RestIsProper(s, cs, rs, encode);
      AllSpare(s', cs[1..], rs[1..], encode, c);
      AfterRest(s, cs, rs, encode);
      SameViewTrans(c, s, s', SystemAfter(s, SyncAll(s, cs, rs, encode)));
    }
  }

  /** The visit came out as it would have from `s`, and `end` looks to the connection as if nothing else had happened. */
  ghost predicate AsAlone(s: System, c: Connection, r: Round, encode: Comp -> Option<string>, v: Visit, end: System) {
    ValidRound(s, c, r, encode) &&
    var alone := SyncConnection(s, c, r, encode);
    v.outcome == alone.outcome && v.trace == alone.trace && SameView(c, alone.s, end)
  }

  lemma OwnVisitAlike(s: System, s1: System, c: Connection, r: Round, encode: Comp -> Option<string>, v: Visit, end: System)
    requires SameView(c, s, s1) && AsAlone(s1, c, r, encode, v, end)
    ensures AsAlone(s, c, r, encode, v, end)
  {
    SameViewTrans(c, s, s1, s1);
    RoundAlike(c, r, s1, s, encode);
    var a, a1 := SyncConnection(s, c, r, encode), SyncConnection(s1, c, r, encode);
    SameViewTrans(c, a1.s, a.s, a.s);
    SameViewTrans(c, a.s, a1.s, end);
  }

  lemma AloneFirst(s: System, cs: seq<Connection>, rs: seq<Round>, encode: Comp -> Option<string>)
    requires ValidRounds(s, cs, rs, encode) && AllProper(s, cs) && PairwiseIndependent(cs) && cs != []
    ensures var vs := SyncAll(s, cs, rs, encode);
            AsAlone(s, cs[0], rs[0], encode, vs[0], SystemAfter(s, vs))
  {
    RestIsProper(s, cs, rs, encode);
    AfterRest(s, cs, rs, encode);
    forall d <- cs[1..] ensures Independent(cs[0], d) {
      var j :| 1 <= j < |cs| && cs[j] == d;
    }
    AllSpare(SyncConnection(s, cs[0], rs[0], encode).s, cs[1..], rs[1..], encode, cs[0]);
  }

  lemma AloneLater(s: System, d: Connection, q: Round, c: Connection, r: Round, encode: Comp -> Option<string>, v: Visit, end: System)
    requires Independent(c, d) && Prefixed(d) && ProperRows(s.w.rows, d.t) && ValidRound(s, d, q, encode)
    requires AsAlone(SyncConnection(s, d, q, encode).s, c, r, encode, v, end)
    ensures AsAlone(s, c, r, encode, v, end)
  {
    VisitSpares(s, d, q, encode, c);
    OwnVisitAlike(s, SyncConnection(s, d, q, encode).s, c, r, encode, v, end);
  }

  /** Non-interference, given what every source answers. */
  lemma {:induction false} AloneGiven(s: System, cs: seq<Connection>, rs: seq<Round>, encode: Comp -> Option<string>, i: nat)
    requires ValidRounds(s, cs, rs, encode) && AllProper(s, cs) && PairwiseIndependent(cs) && i < |cs|
    ensures var vs := SyncAll(s, cs, rs, encode);
            AsAlone(s, cs[i], rs[i], encode, vs[i], SystemAfter(s, vs))
    decreases |cs|
  {
    if i == 0 {
      AloneFirst(s, cs, rs, encode);
    } else {
      RestIsProper(s, cs, rs, encode);
      AfterRest(s, cs, rs, encode);
      AloneGiven(SyncConnection(s, cs[0], rs[0], encode).s, cs[1..], rs[1..], encode, i - 1);
      var vs := SyncAll(s, cs, rs, encode);
      AloneLater(s, cs[0], rs[0], cs[i], rs[i], encode, vs[i], SystemAfter(s, vs));
    }
  }

  // ---------------------------------------------------------------- sources that answer from what they hold

  /** What a connection meets in one `Sync`, told for whatever there is. Probe and fetch answer from the resources in the source's
      collection, all else about the source being fixed; the walks are told for whatever is to be walked. */
  datatype Outlook = Outlook(stateReadable: bool, probe: map<string, Content> -> Option<CalendarState>,
                             fetch: map<string, Content> -> Option<Fetched>, stateWrite: Fate, faults: Faults,
                             walk: set<string> -> seq<string>, staleWalk: set<string> -> seq<string>)

  ghost predicate Walking(o: Outlook) {
    forall keys: set<string> :: Enumerates(o.walk(keys), keys) && Enumerates(o.staleWalk(keys), keys)
  }

  function EventsOf(c: Connection, f: Option<Fetched>, encode: Comp -> Option<string>): map<string, Content> {
    if f.Some? && f.value.feed.Some? then ParseEvents(f.value.feed.value, c.trs, encode) else map[]
  }

  /** What the connection meets when its turn comes. */
  function RoundIn(s: System, c: Connection, o: Outlook, encode: Comp -> Option<string>): Round {
    var held := SourceView(s.w.remote, c.url);
    var f := o.fetch(held);
    Round(o.stateReadable, o.probe(held), f, o.stateWrite, o.faults, o.walk(EventsOf(c, f, encode).Keys),
          o.staleWalk(ListedBy(s.w, Plan(c.t, map[], o.faults)).Keys))
  }

  lemma RoundInIsValid(s: System, c: Connection, o: Outlook, encode: Comp -> Option<string>)
    requires Walking(o)
    ensures ValidRound(s, c, RoundIn(s, c, o, encode), encode)
  {
  }

  lemma SameSourceView(c: Connection, s1: System, s2: System)
    requires SameView(c, s1, s2)
    ensures SourceView(s1.w.remote, c.url) == SourceView(s2.w.remote, c.url)
  {
    var v1, v2 := SourceView(s1.w.remote, c.url), SourceView(s2.w.remote, c.url);
    forall h: string ensures Get(v1, h) == Get(v2, h) {
      assert Footprint(c)(h) ==> Get(s1.w.remote, h) == Get(s2.w.remote, h);
    }
    SameMap(v1, v2);
  }

  /** A visit, with what the source answers, depends on the connection's own view only. */
  lemma VisitAlike(c: Connection, o: Outlook, s1: System, s2: System, encode: Comp -> Option<string>)
    requires SameView(c, s1, s2) && Walking(o)
    ensures RoundIn(s1, c, o, encode) == RoundIn(s2, c, o, encode)
    ensures ValidRound(s1, c, RoundIn(s1, c, o, encode), encode) && ValidRound(s2, c, RoundIn(s2, c, o, encode), encode)
    ensures var v1 := SyncConnection(s1, c, RoundIn(s1, c, o, encode), encode);
            var v2 := SyncConnection(s2, c, RoundIn(s2, c, o, encode), encode);
            v1.outcome == v2.outcome && v1.trace == v2.trace && SameView(c, v1.s, v2.s)
  {
    SameSourceView(c, s1, s2);
    ListedAlike(s1.w, s2.w, Plan(c.t, map[], o.faults), Footprint(c));
    RoundInIsValid(s1, c, o, encode);
    RoundAlike(c, RoundIn(s1, c, o, encode), s1, s2, encode);
  }

  ghost predicate AllWalking(os: seq<Outlook>) {
    forall o <- os :: Walking(o)
  }

  /** What the connections meet one after the other in one `Sync`. */
  ghost function RoundsIn(s: System, cs: seq<Connection>, os: seq<Outlook>, encode: Comp -> Option<string>): (rs: seq<Round>)
    requires |cs| == |os| && AllWalking(os)
    ensures |rs| == |cs|
    decreases |cs|
  {
    if cs == [] then []
    else
      var r := RoundIn(s, cs[0], os[0], encode);
      RoundInIsValid(s, cs[0], os[0], encode);
      [r] + RoundsIn(SyncConnection(s, cs[0], r, encode).s, cs[1..], os[1..], encode)
  }

  lemma {:induction false} RoundsInAreValid(s: System, cs: seq<Connection>, os: seq<Outlook>, encode: Comp -> Option<string>)
    requires |cs| == |os| && AllWalking(os)
    ensures ValidRounds(s, cs, RoundsIn(s, cs, os, encode), encode)
    decreases |cs|
  {
    if cs != [] {
      var r := RoundIn(s, cs[0], os[0], encode);
      RoundInIsValid(s, cs[0], os[0], encode);
      RoundsInAreValid(SyncConnection(s, cs[0], r, encode).s, cs[1..], os[1..], encode);
      assert RoundsIn(s, cs, os, encode)[1..] == RoundsIn(SyncConnection(s, cs[0], r, encode).s, cs[1..], os[1..], encode);
    }
  }

  /** What a connection meets does not depend on the connections before it. */
  lemma {:induction false} MeetsTheSame(s: System, cs: seq<Connection>, os: seq<Outlook>, encode: Comp -> Option<string>, i: nat)
    requires |cs| == |os| && AllWalking(os) && AllProper(s, cs) && PairwiseIndependent(cs) && i < |cs|
    ensures RoundsIn(s, cs, os, encode)[i] == RoundIn(s, cs[i], os[i], encode)
    decreases |cs|
  {
    if i > 0 {
      var r := RoundIn(s, cs[0], os[0], encode);
      RoundInIsValid(s, cs[0], os[0], encode);
      var s' := SyncConnection(s, cs[0], r, encode).s;
      RoundsInAreValid(s, cs, os, encode);
      RestIsProper(s, cs, RoundsIn(s, cs, os, encode), encode);
      MeetsTheSame(s', cs[1..], os[1..], encode, i - 1);
      VisitSpares(s, cs[0], r, encode, cs[i]);
      VisitAlike(cs[i], os[i], s, s', encode);
    }
  }

  /** Non-interference. When connections are pairwise independent, one `Sync` over all of them gives each what its source answers
      alone, and the outcome, the trace, the rows, the resources and the source state that syncing it alone gives, whatever becomes
      of the others. */
  lemma Alone(s: System, cs: seq<Connection>, os: seq<Outlook>, encode: Comp -> Option<string>, i: nat)
    requires |cs| == |os| && AllWalking(os) && AllProper(s, cs) && PairwiseIndependent(cs) && i < |cs|
    ensures var rs := RoundsIn(s, cs, os, encode);
            && ValidRounds(s, cs, rs, encode)
            && var vs := SyncAll(s, cs, rs, encode);
            AsAlone(s, cs[i], RoundIn(s, cs[i], os[i], encode), encode, vs[i], SystemAfter(s, vs))
  {
    RoundsInAreValid(s, cs, os, encode);
    MeetsTheSame(s, cs, os, encode, i);
    AloneGiven(s, cs, RoundsIn(s, cs, os, encode), encode, i);
  }

  // ---------------------------------------------------------------- a shared source

  /** A source in this state tells `HasChanged` whether it moved: not the stateless public feed. */
  predicate HasTokens(st: CalendarState) {
    st != NO_STATE
  }

  /** "Unchanged" means exactly that a state with tokens is saved and no token the source now shows differs from it: a token
      the source no longer shows is no change. */
  lemma UnchangedIs(cur: CalendarState, last: CalendarState)
    ensures !HasChanged(cur, last) <==>
            && HasTokens(last)
            && cur.ctag in {"", last.ctag} && cur.syncToken in {"", last.syncToken} && cur.etag in {"", last.etag}
  {
  }

  /** After a visit that fetched and saved a state, a later visit to the same source is a no-op as long as the source
      shows no new token, whichever destination it is for and whatever became of the first one. */
  lemma SavedStateBlocks(s: System, c: Connection, r: Round, s': System, d: Connection, q: Round, encode: Comp -> Option<string>)
    requires ValidRound(s, c, r, encode) && Fetches(s, c, r) && r.stateWrite.TakesEffect()
    requires HasTokens(r.fetch.value.state)
    requires Get(s'.states, d.url) == Get(SyncConnection(s, c, r, encode).s.states, c.url)
    requires d.known && d.url == c.url && q.stateReadable && q.probe.Some?
    ensures !HasChanged(q.probe.value, r.fetch.value.state) ==>
              ValidRound(s', d, q, encode) && SyncConnection(s', d, q, encode) == Visit(s', NotChanged, [])
    ensures HasChanged(q.probe.value, r.fetch.value.state) ==>
              ValidRound(s', d, q, encode) ==> SyncConnection(s', d, q, encode).outcome != NotChanged
  {
    assert s'.states[d.url] == r.fetch.value.state;
  }

  /** Two destinations of one source: when the first fetched and the source has tokens and stands still, the second gets
      nothing in the same `Sync`. */
  lemma SharedSourceStarves(s: System, c: Connection, d: Connection, r: Round, q: Round, encode: Comp -> Option<string>)
    requires ValidRound(s, c, r, encode) && Fetches(s, c, r) && r.stateWrite.TakesEffect()
    requires HasTokens(r.fetch.value.state)
    requires d.known && d.url == c.url && q.stateReadable && q.probe == Some(r.fetch.value.state)
    ensures ValidRounds(s, [c, d], [r, q], encode)
    ensures var vs := SyncAll(s, [c, d], [r, q], encode);
            vs[1].outcome == NotChanged && SystemAfter(s, vs) == vs[0].s
  {
    var v := SyncConnection(s, c, r, encode);
    SavedStateBlocks(s, c, r, v.s, d, q, encode);
    assert [c, d][1..] == [d] && [r, q][1..] == [q] && [d][1..] == [] && [q][1..] == [];
    assert ValidRounds(v.s, [d], [q], encode);
    assert SyncAll(v.s, [d], [q], encode) == [SyncConnection(v.s, d, q, encode)];
  }

  /** A destination that failed is not retried: until its source shows a new token, every later `Sync` of the
      connection does nothing and reports nothing. */
  lemma FailedIsNotRetried(s: System, c: Connection, r: Round, q: Round, encode: Comp -> Option<string>)
    requires ValidRound(s, c, r, encode) && r.stateWrite.TakesEffect()
    requires SyncConnection(s, c, r, encode).outcome in {DestinationFailed, ParseFailed}
    requires HasTokens(r.fetch.value.state) && q.stateReadable && q.probe.Some?
    ensures var v := SyncConnection(s, c, r, encode);
            !HasChanged(q.probe.value, r.fetch.value.state) ==>
              ValidRound(v.s, c, q, encode) && SyncConnection(v.s, c, q, encode) == Visit(v.s, NotChanged, [])
  {
    SavedStateBlocks(s, c, r, SyncConnection(s, c, r, encode).s, c, q, encode);
  }
}
