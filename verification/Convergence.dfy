/** What a successful run achieves, what it counts, and what a second one does. */
module Convergence {
  import opened Text
  import opened Records
  import opened Storage
  import opened Reconcile
  import opened Pointwise

  function HashesOf(events: map<string, Content>): map<string, Digest> {
    map u | u in events :: HashContent(events[u])
  }

  ghost predicate AllSelected(p: Plan) {
    forall u <- p.events :: Selected(u, p.t.prefix)
  }

  /** The active mappings of the plan's destination and source. */
  function Active(w: World, t: Target): map<string, Digest> {
    ActiveMappings(w.rows, t.name, t.prefix)
  }

  /** Stale mappings that a run does not get to: rows its cursor lost, and rows
      whose lookup fails, which the stale loop skips without reporting an error. */
  function Missed(w: World, p: Plan): set<string>
    requires p.faults.listing.Rows?
  {
    set u | u in Active(w, p.t) && u !in p.events && (u in p.faults.listing.lost || !p.faults.stale(u).readable)
  }

  lemma ListedIs(w: World, p: Plan, u: string)
    requires p.faults.listing.Rows?
    ensures u in ListedBy(w, p) <==> u in Active(w, p.t) && u !in p.faults.listing.lost
    ensures u in ListedBy(w, p) ==> ListedBy(w, p)[u] == Active(w, p.t)[u]
  {
  }

  lemma ActiveIs(w: World, t: Target, u: string)
    ensures u in Active(w, t) <==> ActiveCell(CellAt(w, t, u)) && Selected(u, t.prefix)
    ensures u in Active(w, t) ==> Active(w, t)[u] == CellAt(w, t, u).row.value.hash
  {
    ActiveMappingsAt(w.rows, t.name, t.prefix, u);
  }

  /** An event dealt with has an active row with its hash. */
  lemma EventSettled(w: World, p: Plan, u: string)
    requires u in p.events && !Expected(w, p, u).1.Fatal()
    ensures var c := Expected(w, p, u).0; ActiveCell(c) && c.row.value.hash == HashContent(p.events[u])
  {
    if u in ListedBy(w, p) {
      ListedHasRow(w, p, u);
    }
  }

  /** A UID without event ends up active exactly when it was active and missed. */
  lemma StaleSettled(w: World, p: Plan, u: string)
    requires p.faults.listing.Rows? && u !in p.events && !Expected(w, p, u).1.Fatal()
    requires Selected(u, p.t.prefix)
    ensures ActiveCell(Expected(w, p, u).0) <==> u in Missed(w, p)
    ensures u in Missed(w, p) ==> Expected(w, p, u).0 == CellAt(w, p.t, u)
    ensures u in Active(w, p.t) && u !in Missed(w, p) ==> Expected(w, p, u).0.row == Some(w.rows[Key(u, p.t.name)].(deleted := true))
  {
    ActiveIs(w, p.t, u);
    ListedIs(w, p, u);
  }

  /** The listing shows the event as it is. */
  predicate Current(w: World, p: Plan, u: string)
    requires p.faults.listing.Rows? && u in p.events
  {
    u in Active(w, p.t) && u !in p.faults.listing.lost && Active(w, p.t)[u] == Sha256(p.events[u])
  }

  /** The event can be looked up, and is current or written together with its row. */
  ghost predicate GoesThrough(w: World, p: Plan, u: string)
    requires p.faults.listing.Rows? && u in p.events
  {
    var f := p.faults.event(u);
    f.readable && (Current(w, p, u) || (f.call.Done? && f.write.Done?))
  }

  lemma EventGoesThrough(w: World, p: Plan, u: string)
    requires p.faults.listing.Rows? && u in p.events
    ensures !Expected(w, p, u).1.Fatal() <==> GoesThrough(w, p, u)
  {
    ActiveIs(w, p.t, u);
    ListedIs(w, p, u);
  }

  lemma StaleGoesThrough(w: World, p: Plan, u: string)
    requires p.faults.listing.Rows? && u !in p.events
    ensures u in Due(w, p) <==> u in Active(w, p.t) && u !in p.faults.listing.lost
    ensures u in Due(w, p) ==> (!Expected(w, p, u).1.Fatal() <==> (p.faults.stale(u).readable ==> p.faults.stale(u).write.Done?))
  {
    ActiveIs(w, p.t, u);
    ListedIs(w, p, u);
  }

  /** A run succeeds exactly if the listing does, every event can be looked up and is current or written with its row, and every stale
      mapping that is listed and can be looked up gets its tombstone. Whether a delete call fails, or a stale lookup, does not matter. */
  lemma {:induction false} SuccessTakes(w: World, p: Plan, order: seq<string>, staleOrder: seq<string>)
    requires ProperRows(w.rows, p.t) && ProperEvents(p.events) && Walks(w, p, order, staleOrder)
    ensures SyncDestination(w, p, order, staleOrder).ok <==>
            && p.faults.listing.Rows?
            && (forall u <- p.events :: GoesThrough(w, p, u))
            && (forall u <- Active(w, p.t) :: u !in p.events && u !in p.faults.listing.lost && p.faults.stale(u).readable ==>
                  p.faults.stale(u).write.Done?)
    ensures p.faults.listing.ListError? ==> SyncDestination(w, p, order, staleOrder).world == w
  {
    SuccessIs(w, p, order, staleOrder);
    if p.faults.listing.Rows? {
      forall u | u in p.events ensures !Expected(w, p, u).1.Fatal() <==> GoesThrough(w, p, u) {
        EventGoesThrough(w, p, u);
      }
      forall u | u !in p.events
        ensures u in Due(w, p) <==> u in Active(w, p.t) && u !in p.faults.listing.lost
        ensures u in Due(w, p) ==> (!Expected(w, p, u).1.Fatal() <==> (p.faults.stale(u).readable ==> p.faults.stale(u).write.Done?))
      {
        StaleGoesThrough(w, p, u);
      }
    }
  }

  /** `w'` is where a successful run from `w` ends: every UID has what was due to it. */
  ghost predicate Settles(w: World, p: Plan, w': World) {
    && p.faults.listing.Rows?
    && Outside(w, w', p.t)
    && (forall u :: CellAt(w', p.t, u) == Expected(w, p, u).0)
    && (forall u :: !Expected(w, p, u).1.Fatal())
  }

  lemma RunSettles(w: World, p: Plan, order: seq<string>, staleOrder: seq<string>)
    requires ProperRows(w.rows, p.t) && ProperEvents(p.events) && Walks(w, p, order, staleOrder)
    requires SyncDestination(w, p, order, staleOrder).ok
    ensures Settles(w, p, SyncDestination(w, p, order, staleOrder).world)
    ensures TraceFollows(SyncDestination(w, p, order, staleOrder).trace, true, Due(w, p), RunRule(w, p))
  {
    RunFollows(w, p, order, staleOrder);
    SuccessIs(w, p, order, staleOrder);
    var r := SyncDestination(w, p, order, staleOrder);
    forall u
      ensures CellAt(r.world, p.t, u) == Expected(w, p, u).0
      ensures !Expected(w, p, u).1.Fatal()
    {
      assert RunRule(w, p)(u) == Expected(w, p, u);
    }
  }

  // ---------------------------------------------------------------- convergence

  /** The hashes of the selected events, and the stale mappings a run missed. */
  function Goal(w: World, p: Plan): map<string, Digest>
    requires p.faults.listing.Rows?
  {
    map u | u in p.events.Keys + Missed(w, p) && Selected(u, p.t.prefix)
      :: if u in p.events then HashContent(p.events[u]) else Active(w, p.t)[u]
  }

  lemma SettledIsGoal(w: World, p: Plan, w': World)
    requires Settles(w, p, w')
    ensures Active(w', p.t) == Goal(w, p)
  {
    forall u
      ensures u in Active(w', p.t) <==> u in Goal(w, p)
      ensures u in Goal(w, p) ==> Active(w', p.t)[u] == Goal(w, p)[u]
    {
      ActiveIs(w', p.t, u);
      ActiveIs(w, p.t, u);
      if u in p.events {
        EventSettled(w, p, u);
      } else if Selected(u, p.t.prefix) {
        StaleSettled(w, p, u);
      }
    }
  }

  lemma GoalIsHashes(w: World, p: Plan)
    requires p.faults.listing.Rows?
    ensures Goal(w, p) == HashesOf(p.events) <==> AllSelected(p) && Missed(w, p) == {}
  {
    if Goal(w, p) == HashesOf(p.events) {
      forall u <- p.events ensures Selected(u, p.t.prefix) {
        assert u in HashesOf(p.events);
      }
      forall u ensures u !in Missed(w, p) {
        ActiveIs(w, p.t, u);
        assert u !in p.events ==> u !in Goal(w, p);
      }
    }
  }

  /** Convergence. After a run that reports success, the active mappings are the hashes of the events that
      the source's prefix selects and the stale mappings the run missed, nothing else; so they match the
      source exactly when every event carries the prefix and no stale row was missed. */
  lemma Converges(w: World, p: Plan, order: seq<string>, staleOrder: seq<string>)
    requires ProperRows(w.rows, p.t) && ProperEvents(p.events) && Walks(w, p, order, staleOrder)
    requires SyncDestination(w, p, order, staleOrder).ok
    ensures var after := Active(SyncDestination(w, p, order, staleOrder).world, p.t);
            && after == Goal(w, p)
            && (after == HashesOf(p.events) <==> AllSelected(p) && Missed(w, p) == {})
  {
    RunSettles(w, p, order, staleOrder);
    SettledIsGoal(w, p, SyncDestination(w, p, order, staleOrder).world);
    GoalIsHashes(w, p);
  }

  // ---------------------------------------------------------------- order independence

  lemma SameWorld(w: World, w1: World, w2: World, t: Target)
    requires Outside(w, w1, t) && Outside(w, w2, t)
    requires forall u :: CellAt(w1, t, u) == CellAt(w2, t, u)
    ensures w1 == w2
  {
    forall k: Key ensures Get(w1.rows, k) == Get(w2.rows, k) {
      if k.dest == t.name {
        assert CellAt(w1, t, k.uid) == CellAt(w2, t, k.uid);
        assert k == Key(k.uid, t.name);
      }
    }
    forall h: string ensures Get(w1.remote, h) == Get(w2.remote, h) {
      assert CellAt(w1, t, UidOfHref(t.base, h)) == CellAt(w2, t, UidOfHref(t.base, h));
    }
    SameMap(w1.rows, w2.rows);
    SameMap(w1.remote, w2.remote);
  }

  function With(trace: seq<Entry>, v: Verdict): set<string> {
    set e <- trace | e.verdict == v :: e.uid
  }

  lemma WithSplit(e: Entry, rest: seq<Entry>, v: Verdict)
    requires OnePerUid([e] + rest)
    ensures OnePerUid(rest)
    ensures With([e] + rest, v) == With(rest, v) + if e.verdict == v then {e.uid} else {}
    ensures e.uid !in With(rest, v)
  {
    var trace := [e] + rest;
    assert forall x :: x in trace <==> x == e || x in rest;
    assert forall i :: 0 <= i < |rest| ==> rest[i] == trace[i + 1] && rest[i].uid != trace[0].uid;
  }

  lemma {:induction false} CountIsCard(trace: seq<Entry>, v: Verdict)
    requires OnePerUid(trace)
    ensures CountOf(trace, v) == |With(trace, v)|
  {
    if trace != [] {
      var e, rest := trace[0], trace[1..];
      assert trace == [e] + rest;
      WithSplit(e, rest, v);
      CountIsCard(rest, v);
    }
  }

  /** The UIDs a successful run deals with in one way. */
  ghost function Verdicts(w: World, p: Plan, v: Verdict): set<string> {
    set u <- Due(w, p) | Expected(w, p, u).1 == v
  }

  lemma CountsAre(trace: seq<Entry>, w: World, p: Plan, v: Verdict)
    requires TraceFollows(trace, true, Due(w, p), RunRule(w, p))
    ensures CountOf(trace, v) == |Verdicts(w, p, v)|
  {
    CountIsCard(trace, v);
    forall i | 0 <= i < |trace| ensures trace[i].uid in Due(w, p) && trace[i].verdict == Expected(w, p, trace[i].uid).1 {
      assert trace[i].uid in Uids(trace);
      assert RunRule(w, p)(trace[i].uid) == Expected(w, p, trace[i].uid);
    }
    forall u <- Verdicts(w, p, v) ensures u in With(trace, v) {
      assert u in Uids(trace);
      var e :| e in trace && e.uid == u;
    }
    assert With(trace, v) == Verdicts(w, p, v);
  }

  /** Neither of the two map walks matters: success is the same for all, and so are, on success,
      the whole store, the whole remote calendar and every counter. */
  lemma OrderIndependent(w: World, p: Plan, o1: seq<string>, s1: seq<string>, o2: seq<string>, s2: seq<string>, v: Verdict)
    requires ProperRows(w.rows, p.t) && ProperEvents(p.events) && Walks(w, p, o1, s1) && Walks(w, p, o2, s2)
    ensures var r1, r2 := SyncDestination(w, p, o1, s1), SyncDestination(w, p, o2, s2);
            && (r1.ok <==> r2.ok)
            && (r1.ok ==> r1.world == r2.world && CountOf(r1.trace, v) == CountOf(r2.trace, v))
  {
    SuccessIs(w, p, o1, s1);
    SuccessIs(w, p, o2, s2);
    if SyncDestination(w, p, o1, s1).ok {
      RunSettles(w, p, o1, s1);
      RunSettles(w, p, o2, s2);
      SettleAlike(w, p, SyncDestination(w, p, o1, s1), SyncDestination(w, p, o2, s2), v);
    }
  }

  lemma SettleAlike(w: World, p: Plan, r1: Run, r2: Run, v: Verdict)
    requires Settles(w, p, r1.world) && TraceFollows(r1.trace, true, Due(w, p), RunRule(w, p))
    requires Settles(w, p, r2.world) && TraceFollows(r2.trace, true, Due(w, p), RunRule(w, p))
    ensures r1.world == r2.world && CountOf(r1.trace, v) == CountOf(r2.trace, v)
  {
    SameWorld(w, r1.world, r2.world, p.t);
    CountsAre(r1.trace, w, p, v);
    CountsAre(r2.trace, w, p, v);
  }

  // ---------------------------------------------------------------- counters

  lemma EventVerdict(c: Cell, t: Target, u: string, data: Content, listed: Option<Digest>, f: UidFates)
    requires !EventCell(c, t, u, data, listed, f).1.Fatal() && (listed.Some? ==> c.row.Some?)
    ensures var v := EventCell(c, t, u, data, listed, f).1;
            v in {Created, Updated, Unchanged} && (v == Created <==> c.row.None?)
  {
  }

  lemma StaleVerdict(c: Cell, t: Target, hash: Digest, f: UidFates)
    requires ActiveCell(c) && !StaleCell(c, t, hash, f).1.Fatal()
    ensures StaleCell(c, t, hash, f).1 == if f.readable then Tombstoned else PassedOver
  {
  }

  /** What happens to an event when nothing stops the run. */
  lemma EventVerdictIs(w: World, p: Plan, u: string)
    requires !Expected(w, p, u).1.Fatal() && u in p.events
    ensures Expected(w, p, u).1 in {Created, Updated, Unchanged}
    ensures Expected(w, p, u).1 == Created <==> Key(u, p.t.name) !in w.rows
  {
    if u in ListedBy(w, p) {
      ListedHasRow(w, p, u);
    }
    EventVerdict(CellAt(w, p.t, u), p.t, u, p.events[u], Get(ListedBy(w, p), u), p.faults.event(u));
  }

  /** What happens to a stale mapping when nothing stops the run. */
  lemma StaleVerdictIs(w: World, p: Plan, u: string)
    requires !Expected(w, p, u).1.Fatal() && u in ListedBy(w, p) && u !in p.events
    ensures Expected(w, p, u).1 == if p.faults.stale(u).readable then Tombstoned else PassedOver
  {
    ListedHasRow(w, p, u);
    StaleVerdict(CellAt(w, p.t, u), p.t, ListedBy(w, p)[u], p.faults.stale(u));
  }

  lemma {:induction false} VerdictInKind(w: World, p: Plan, u: string)
    requires u in Due(w, p) && !Expected(w, p, u).1.Fatal()
    ensures u in p.events ==> Expected(w, p, u).1 in {Created, Updated, Unchanged}
    ensures u !in p.events ==> Expected(w, p, u).1 in {Tombstoned, PassedOver}
    ensures Expected(w, p, u).1 == Created <==> u in p.events && Key(u, p.t.name) !in w.rows
  {
    if u in p.events {
      EventVerdictIs(w, p, u);
    } else {
      StaleVerdictIs(w, p, u);
    }
  }

  lemma {:induction false} EventSets(w: World, p: Plan)
    requires forall u <- Due(w, p) :: !Expected(w, p, u).1.Fatal()
    ensures Verdicts(w, p, Created) == set u <- p.events | Key(u, p.t.name) !in w.rows
    ensures Verdicts(w, p, Created) + Verdicts(w, p, Updated) + Verdicts(w, p, Unchanged) == p.events.Keys
  {
    forall u
      ensures u in Verdicts(w, p, Created) <==> u in p.events && Key(u, p.t.name) !in w.rows
      ensures u in Verdicts(w, p, Created) + Verdicts(w, p, Updated) + Verdicts(w, p, Unchanged) <==> u in p.events
    {
      if u in Due(w, p) {
        VerdictInKind(w, p, u);
      }
    }
  }

  lemma StaleSet(w: World, p: Plan)
    requires p.faults.listing.Rows? && forall u <- Due(w, p) :: !Expected(w, p, u).1.Fatal()
    ensures Verdicts(w, p, Tombstoned) == Active(w, p.t).Keys - p.events.Keys - Missed(w, p)
  {
    forall u ensures u in Verdicts(w, p, Tombstoned) <==> u in Active(w, p.t).Keys - p.events.Keys - Missed(w, p) {
      ListedIs(w, p, u);
      if u in p.events {
        EventVerdictIs(w, p, u);
      } else if u in ListedBy(w, p) {
        StaleVerdictIs(w, p, u);
      }
    }
  }

  lemma ThreeParts(a: set<string>, b: set<string>, c: set<string>)
    requires a !! b && a !! c && b !! c
    ensures |a + b + c| == |a| + |b| + |c|
  {
  }

  /** Conservation: a successful run creates exactly the events without row, deletes exactly the active
      stale mappings it did not miss, and accounts for every event once. */
  lemma Counters(w: World, p: Plan, order: seq<string>, staleOrder: seq<string>)
    requires ProperRows(w.rows, p.t) && ProperEvents(p.events) && Walks(w, p, order, staleOrder)
    requires SyncDestination(w, p, order, staleOrder).ok
    ensures var tr := SyncDestination(w, p, order, staleOrder).trace;
            && CountOf(tr, Created) == |set u <- p.events | Key(u, p.t.name) !in w.rows|
            && CountOf(tr, Created) + CountOf(tr, Updated) + CountOf(tr, Unchanged) == |p.events|
            && CountOf(tr, Tombstoned) == |Active(w, p.t).Keys - p.events.Keys - Missed(w, p)|
  {
    RunSettles(w, p, order, staleOrder);
    var tr := SyncDestination(w, p, order, staleOrder).trace;
    EventCounters(tr, w, p);
    CountsAre(tr, w, p, Tombstoned);
    StaleSet(w, p);
  }

  lemma EventCounters(tr: seq<Entry>, w: World, p: Plan)
    requires TraceFollows(tr, true, Due(w, p), RunRule(w, p))
    requires forall u <- Due(w, p) :: !Expected(w, p, u).1.Fatal()
    ensures CountOf(tr, Created) == |set u <- p.events | Key(u, p.t.name) !in w.rows|
    ensures CountOf(tr, Created) + CountOf(tr, Updated) + CountOf(tr, Unchanged) == |p.events|
  {
    CountsAre(tr, w, p, Created);
    CountsAre(tr, w, p, Updated);
    CountsAre(tr, w, p, Unchanged);
    EventSets(w, p);
    ThreeParts(Verdicts(w, p, Created), Verdicts(w, p, Updated), Verdicts(w, p, Unchanged));
    assert |p.events| == |p.events.Keys|;
  }

  lemma {:induction false} UpdatedAre(w: World, p: Plan, u: string)
    requires p.faults.listing.Rows? && u in p.events && !Expected(w, p, u).1.Fatal()
    ensures Expected(w, p, u).1 == Updated <==> Key(u, p.t.name) in w.rows && !Current(w, p, u)
  {
    ActiveIs(w, p.t, u);
    ListedIs(w, p, u);
  }

  /** Updated are the events that have a row and are not current. */
  lemma {:induction false} UpdatedCounter(w: World, p: Plan, order: seq<string>, staleOrder: seq<string>)
    requires ProperRows(w.rows, p.t) && ProperEvents(p.events) && Walks(w, p, order, staleOrder)
    requires SyncDestination(w, p, order, staleOrder).ok
    ensures p.faults.listing.Rows?
    ensures CountOf(SyncDestination(w, p, order, staleOrder).trace, Updated) ==
            |set u <- p.events | Key(u, p.t.name) in w.rows && !Current(w, p, u)|
  {
    RunSettles(w, p, order, staleOrder);
    CountsAre(SyncDestination(w, p, order, staleOrder).trace, w, p, Updated);
    forall u ensures u in Verdicts(w, p, Updated) <==> u in p.events && Key(u, p.t.name) in w.rows && !Current(w, p, u) {
      if u in p.events {
        UpdatedAre(w, p, u);
      } else if u in Due(w, p) {
        VerdictInKind(w, p, u);
      }
    }
    assert Verdicts(w, p, Updated) == set u <- p.events | Key(u, p.t.name) in w.rows && !Current(w, p, u);
  }

  // ---------------------------------------------------------------- idempotence

  /** An entry that stands for neither a remote call nor a store write. */
  predicate Idle(v: Verdict) {
    v.Unchanged? || v.PassedOver? || v.ReadFailed?
  }

  ghost predicate Quiet(trace: seq<Entry>) {
    forall e <- trace :: Idle(e.verdict)
  }

  const GOOD := UidFates(true, Done, Done)

  /** Nothing fails. */
  ghost predicate AllGood(f: Faults) {
    f.listing == Rows({}) && forall u :: f.event(u) == GOOD && f.stale(u) == GOOD
  }

  /** A cell that already holds an event: written again or not, it stays as it is. */
  lemma PutAgain(c: Cell, t: Target, u: string, data: Content, listed: Option<Digest>, f: UidFates)
    requires ActiveCell(c) && c.row.value.hash == HashContent(data)
    requires listed == Some(HashContent(data)) || c == Cell(Some(FreshRow(t, u, data)), Some(data))
    ensures EventCell(c, t, u, data, listed, f).0 == c
    ensures listed == Some(HashContent(data)) ==> Idle(EventCell(c, t, u, data, listed, f).1)
    ensures listed == None && f == GOOD ==> EventCell(c, t, u, data, listed, f).1 == Updated
  {
  }

  /** What a second run over the same events finds at a UID: nothing to do, unless it is an event
      outside the prefix, which is written again with what is there already. */
  lemma SecondLookAtEvent(w: World, p1: Plan, w1: World, p2: Plan, u: string)
    requires Settles(w, p1, w1) && u in p1.events
    requires p2.t.(hard := p1.t.hard) == p1.t && p2.events == p1.events && p2.faults.listing == Rows({})
    ensures Expected(w1, p2, u).0 == CellAt(w1, p2.t, u)
    ensures Selected(u, p1.t.prefix) ==> Idle(Expected(w1, p2, u).1)
    ensures !Selected(u, p1.t.prefix) && p2.faults.event(u) == GOOD ==> Expected(w1, p2, u).1 == Updated
  {
    EventSettled(w, p1, u);
    ActiveIs(w1, p2.t, u);
    ListedIs(w1, p2, u);
    if !Selected(u, p1.t.prefix) {
      ActiveIs(w, p1.t, u);
      ListedIs(w, p1, u);
    }
    PutAgain(CellAt(w1, p2.t, u), p2.t, u, p2.events[u], Get(ListedBy(w1, p2), u), p2.faults.event(u));
  }

  lemma SecondLook(w: World, p1: Plan, w1: World, p2: Plan, u: string)
    requires Settles(w, p1, w1) && Missed(w, p1) == {}
    requires p2.t.(hard := p1.t.hard) == p1.t && p2.events == p1.events && p2.faults.listing == Rows({})
    ensures Expected(w1, p2, u).0 == CellAt(w1, p2.t, u)
    ensures u in Due(w1, p2) <==> u in p1.events
  {
    if u in p1.events {
      SecondLookAtEvent(w, p1, w1, p2, u);
    } else {
      ActiveIs(w1, p2.t, u);
      ListedIs(w1, p2, u);
      if Selected(u, p1.t.prefix) {
        StaleSettled(w, p1, u);
      }
    }
  }

  lemma IdleWorld(w: World, p1: Plan, w1: World, p2: Plan, r2: Run)
    requires Settles(w, p1, w1) && Missed(w, p1) == {}
    requires p2.t.(hard := p1.t.hard) == p1.t && p2.events == p1.events && p2.faults.listing == Rows({})
    requires CellsFollow(w1, r2.world, p2.t, Uids(r2.trace), RunRule(w1, p2))
    ensures r2.world == w1
  {
    forall u ensures CellAt(r2.world, p2.t, u) == CellAt(w1, p2.t, u) {
      SecondLook(w, p1, w1, p2, u);
      assert RunRule(w1, p2)(u) == Expected(w1, p2, u);
    }
    SameWorld(w1, r2.world, w1, p2.t);
  }

  lemma QuietTrace(w: World, p1: Plan, w1: World, p2: Plan, r2: Run)
    requires Settles(w, p1, w1) && Missed(w, p1) == {}
    requires p2.t.(hard := p1.t.hard) == p1.t && p2.events == p1.events && p2.faults.listing == Rows({})
    requires TraceFollows(r2.trace, r2.ok, Due(w1, p2), RunRule(w1, p2))
    requires AllSelected(p1)
    ensures Quiet(r2.trace)
  {
    forall e <- r2.trace ensures Idle(e.verdict) {
      assert e.uid in Uids(r2.trace);
      SecondLook(w, p1, w1, p2, e.uid);
      SecondLookAtEvent(w, p1, w1, p2, e.uid);
      assert RunRule(w1, p2)(e.uid) == Expected(w1, p2, e.uid);
    }
  }

  lemma Visited(trace: seq<Entry>, due: set<string>, g: string -> (Cell, Verdict), u: string)
    requires TraceFollows(trace, true, due, g) && u in due
    ensures Entry(u, g(u).1) in trace
  {
    var e :| e in trace && e.uid == u;
    assert e == Entry(u, g(u).1);
  }

  lemma RestlessTrace(trace: seq<Entry>, ok: bool, due: set<string>, g: string -> (Cell, Verdict), u: string)
    requires TraceFollows(trace, ok, due, g) && u in due && g(u).1 == Updated
    requires forall x <- due :: !g(x).1.Fatal()
    ensures !Quiet(trace)
  {
    TraceSuccess(trace, ok, due, g);
    Visited(trace, due, g, u);
  }

  lemma {:induction false} UnselectedIsRestless(w: World, p1: Plan, w1: World, p2: Plan, u: string)
    requires Settles(w, p1, w1) && Missed(w, p1) == {}
    requires p2.t.(hard := p1.t.hard) == p1.t && p2.events == p1.events && AllGood(p2.faults)
    requires u in p1.events && !Selected(u, p1.t.prefix)
    ensures u in Due(w1, p2) && RunRule(w1, p2)(u).1 == Updated
    ensures forall x <- Due(w1, p2) :: !RunRule(w1, p2)(x).1.Fatal()
  {
    SecondLook(w, p1, w1, p2, u);
    SecondLookAtEvent(w, p1, w1, p2, u);
    forall x <- Due(w1, p2) ensures !RunRule(w1, p2)(x).1.Fatal() {
      SecondLook(w, p1, w1, p2, x);
      SecondLookAtEvent(w, p1, w1, p2, x);
    }
  }

  /** Idempotence. After a complete run, another over the same events changes neither the store nor the
      remote calendar, whatever then fails; and when nothing fails it makes no call and no write
      exactly if every event carries the source's prefix. */
  lemma Idempotent(w: World, p1: Plan, o1: seq<string>, s1: seq<string>, p2: Plan, o2: seq<string>, s2: seq<string>)
    requires ProperRows(w.rows, p1.t) && ProperEvents(p1.events) && Walks(w, p1, o1, s1)
    requires SyncDestination(w, p1, o1, s1).ok && Missed(w, p1) == {}
    requires p2.t.(hard := p1.t.hard) == p1.t && p2.events == p1.events && p2.faults.listing == Rows({})
    requires Walks(SyncDestination(w, p1, o1, s1).world, p2, o2, s2)
    ensures var w1 := SyncDestination(w, p1, o1, s1).world;
            var r2 := SyncDestination(w1, p2, o2, s2);
            && r2.world == w1
            && (AllSelected(p1) ==> Quiet(r2.trace))
            && (AllGood(p2.faults) ==> (Quiet(r2.trace) <==> AllSelected(p1)))
  {
    RunSettles(w, p1, o1, s1);
    RunFollows(w, p1, o1, s1);
    var w1 := SyncDestination(w, p1, o1, s1).world;
    RunFollows(w1, p2, o2, s2);
    var r2 := SyncDestination(w1, p2, o2, s2);
    IdleWorld(w, p1, w1, p2, r2);
    if AllSelected(p1) {
      QuietTrace(w, p1, w1, p2, r2);
    } else if AllGood(p2.faults) {
      var u :| u in p1.events && !Selected(u, p1.t.prefix);
      UnselectedIsRestless(w, p1, w1, p2, u);
      RestlessTrace(r2.trace, r2.ok, Due(w1, p2), RunRule(w1, p2), u);
    }
  }
}
