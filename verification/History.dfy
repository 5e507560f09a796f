/** Invariants over whole histories of runs at one destination: any events,
    any delete mode, any failures, any walks. */
module History {
  import opened Text
  import opened Records
  import opened Storage
  import opened Reconcile
  import opened Pointwise
  import opened Convergence
  import opened Recovery

  datatype Step = Step(plan: Plan, order: seq<string>, staleOrder: seq<string>)

  /** The prefix and the delete mode may change between runs, the destination does not. */
  ghost predicate ValidStep(w: World, t: Target, s: Step) {
    && s.plan.t.name == t.name && s.plan.t.base == t.base
    && ProperEvents(s.plan.events)
    && Walks(w, s.plan, s.order, s.staleOrder)
  }

  function RunOf(w: World, s: Step): Run
    requires Walks(w, s.plan, s.order, s.staleOrder)
  {
    SyncDestination(w, s.plan, s.order, s.staleOrder)
  }

  ghost predicate ValidHistory(w: World, t: Target, h: seq<Step>)
    decreases |h|
  {
    h == [] || (ValidStep(w, t, h[0]) && ValidHistory(RunOf(w, h[0]).world, t, h[1..]))
  }

  /** The runs of a history, in order. */
  ghost function Runs(w: World, t: Target, h: seq<Step>): (rs: seq<Run>)
    requires ValidHistory(w, t, h)
    ensures |rs| == |h|
    decreases |h|
  {
    if h == [] then [] else var r := RunOf(w, h[0]); [r] + Runs(r.world, t, h[1..])
  }

  /** Where a sequence of runs started in `w` ends. */
  ghost function EndOf(w: World, rs: seq<Run>): World {
    if rs == [] then w else rs[|rs| - 1].world
  }

  lemma EndOfRest(w: World, t: Target, h: seq<Step>)
    requires ValidHistory(w, t, h) && h != []
    ensures var r := RunOf(w, h[0]);
            && EndOf(w, Runs(w, t, h)) == EndOf(r.world, Runs(r.world, t, h[1..]))
            && Runs(w, t, h)[0] == r && Runs(w, t, h)[1..] == Runs(r.world, t, h[1..])
  {
  }

  lemma ProperRowsElsewhere(w: World, t: Target, t': Target)
    requires t.name == t'.name && t.base == t'.base
    ensures ProperRows(w.rows, t) <==> ProperRows(w.rows, t')
    ensures forall w' :: Outside(w, w', t) <==> Outside(w, w', t')
    ensures forall u :: CellAt(w, t, u) == CellAt(w, t', u)
  {
  }

  // ---------------------------------------------------------------- one run, seen from one UID

  /** A run either leaves a UID alone or does what its own cell, event, listing and fates say. */
  lemma StepAt(w: World, t: Target, s: Step, u: string)
    requires ProperRows(w.rows, t) && ValidStep(w, t, s)
    ensures var r := RunOf(w, s);
            && ProperRows(r.world.rows, t)
            && (u !in Uids(r.trace) ==> CellAt(r.world, t, u) == CellAt(w, t, u))
            && (u in Uids(r.trace) ==>
                  && s.plan.faults.listing.Rows? && u in Due(w, s.plan)
                  && CellAt(r.world, t, u) == Expected(w, s.plan, u).0
                  && Entry(u, Expected(w, s.plan, u).1) in r.trace)
  {
    var r := RunOf(w, s);
    ProperRowsElsewhere(w, t, s.plan.t);
    if s.plan.faults.listing.Rows? {
      RunFollows(w, s.plan, s.order, s.staleOrder);
      ProperRowsElsewhere(r.world, t, s.plan.t);
      assert RunRule(w, s.plan)(u) == Expected(w, s.plan, u);
    }
  }

  /** What a run records of a UID is what its own cell, event, listing and fates say. */
  lemma RecordedAt(w: World, t: Target, s: Step, e: Entry)
    requires ProperRows(w.rows, t) && ValidStep(w, t, s) && e in RunOf(w, s).trace
    ensures e.uid in Uids(RunOf(w, s).trace) && e.verdict == Expected(w, s.plan, e.uid).1
  {
    ProperRowsElsewhere(w, t, s.plan.t);
    if s.plan.faults.listing.Rows? {
      RunFollows(w, s.plan, s.order, s.staleOrder);
      assert RunRule(w, s.plan)(e.uid) == Expected(w, s.plan, e.uid);
    }
  }

  lemma StepStaysInside(w: World, t: Target, s: Step)
    requires ProperRows(w.rows, t) && ValidStep(w, t, s)
    ensures Outside(w, RunOf(w, s).world, t)
  {
    ProperRowsElsewhere(w, t, s.plan.t);
    if s.plan.faults.listing.Rows? {
      RunFollows(w, s.plan, s.order, s.staleOrder);
    }
  }

  // ---------------------------------------------------------------- rows

  /** What a visit does to the row of a cell: never take it away; and the verdict "created" marks its first appearance. */
  lemma VisitKeepsRow(w: World, p: Plan, u: string)
    ensures var (c', v) := Expected(w, p, u);
            && (CellAt(w, p.t, u).row.Some? ==> c'.row.Some?)
            && (v == Created ==> u in p.events && CellAt(w, p.t, u).row.None? && c'.row.Some?)
  {
    if u in ListedBy(w, p) {
      ListedHasRow(w, p, u);
    }
  }

  lemma RowsOnlyGrow(w: World, t: Target, s: Step, u: string)
    requires ProperRows(w.rows, t) && ValidStep(w, t, s) && CellAt(w, t, u).row.Some?
    ensures CellAt(RunOf(w, s).world, t, u).row.Some?
  {
    StepAt(w, t, s, u);
    VisitKeepsRow(w, s.plan, u);
  }

  /** Every row of a destination that its runs can reach has `dest_uid` = `source_uid`, an empty ETag and the address
      its create returned; no row ever disappears. */
  lemma {:induction false} ReachableRows(w: World, t: Target, h: seq<Step>)
    requires ProperRows(w.rows, t) && ValidHistory(w, t, h)
    ensures var w' := EndOf(w, Runs(w, t, h));
            ProperRows(w'.rows, t) && forall k <- w.rows :: k.dest == t.name ==> k in w'.rows
    decreases |h|
  {
    if h != [] {
      var r := RunOf(w, h[0]);
      StepAt(w, t, h[0], "");
      forall k <- w.rows | k.dest == t.name ensures k in r.world.rows {
        assert k == Key(k.uid, t.name) && CellAt(w, t, k.uid).row.Some?;
        RowsOnlyGrow(w, t, h[0], k.uid);
        assert CellAt(r.world, t, k.uid).row.Some?;
      }
      ReachableRows(r.world, t, h[1..]);
      EndOfRest(w, t, h);
    }
  }

  /** From an empty table, the precondition of all other results holds for good. */
  lemma FromEmptyTable(remote: map<string, Content>, t: Target, h: seq<Step>)
    requires ValidHistory(World(map[], remote), t, h)
    ensures ProperRows(EndOf(World(map[], remote), Runs(World(map[], remote), t, h)).rows, t)
  {
    ReachableRows(World(map[], remote), t, h);
  }

  // ---------------------------------------------------------------- creation

  predicate CreatedIn(r: Run, u: string) {
    Entry(u, Created) in r.trace
  }

  lemma CreatedHasRow(w: World, t: Target, s: Step, u: string)
    requires ProperRows(w.rows, t) && ValidStep(w, t, s) && CreatedIn(RunOf(w, s), u)
    ensures CellAt(w, t, u).row.None? && CellAt(RunOf(w, s).world, t, u).row.Some?
  {
    RecordedAt(w, t, s, Entry(u, Created));
    StepAt(w, t, s, u);
    VisitKeepsRow(w, s.plan, u);
  }

  lemma RunsAt(w: World, t: Target, h: seq<Step>, i: nat)
    requires ValidHistory(w, t, h) && i < |h|
    ensures Runs(w, t, h)[i] == if i == 0 then RunOf(w, h[0]) else Runs(RunOf(w, h[0]).world, t, h[1..])[i - 1]
  {
  }

  lemma {:induction false} NeverCreatedAgain(w: World, t: Target, h: seq<Step>, u: string, i: nat)
    requires ProperRows(w.rows, t) && ValidHistory(w, t, h) && CellAt(w, t, u).row.Some? && i < |h|
    ensures !CreatedIn(Runs(w, t, h)[i], u)
    decreases |h|
  {
    RunsAt(w, t, h, i);
    if i == 0 {
      if CreatedIn(RunOf(w, h[0]), u) {
        CreatedHasRow(w, t, h[0], u);
      }
    } else {
      StepAt(w, t, h[0], u);
      RowsOnlyGrow(w, t, h[0], u);
      NeverCreatedAgain(RunOf(w, h[0]).world, t, h[1..], u, i - 1);
    }
  }

  lemma ProperStays(w: World, t: Target, s: Step)
    requires ProperRows(w.rows, t) && ValidStep(w, t, s)
    ensures ProperRows(RunOf(w, s).world.rows, t)
  {
    StepAt(w, t, s, "");
  }

  /** A UID is recorded as created at a destination at most once ever: after a deletion it comes back as an update. */
  lemma {:induction false} CreatedAtMostOnce(w: World, t: Target, h: seq<Step>, u: string, i: nat, j: nat)
    requires ProperRows(w.rows, t) && ValidHistory(w, t, h) && i < j < |h|
    ensures !(CreatedIn(Runs(w, t, h)[i], u) && CreatedIn(Runs(w, t, h)[j], u))
    decreases |h|
  {
    RunsAt(w, t, h, i);
    RunsAt(w, t, h, j);
    ProperStays(w, t, h[0]);
    if i > 0 {
      CreatedAtMostOnce(RunOf(w, h[0]).world, t, h[1..], u, i - 1, j - 1);
    } else if CreatedIn(RunOf(w, h[0]), u) {
      CreatedHasRow(w, t, h[0], u);
      NeverCreatedAgain(RunOf(w, h[0]).world, t, h[1..], u, j - 1);
    }
  }

  // ---------------------------------------------------------------- agreement

  /** The visit changes the remote copy of an active row but not the row: the one way to break agreement. */
  ghost predicate TornAt(w: World, p: Plan, u: string) {
    var c := CellAt(w, p.t, u);
    ActiveCell(c) &&
    if u in p.events then
      var f := p.faults.event(u);
      && c.row.value.hash != HashContent(p.events[u])
      && f.readable && f.call.TakesEffect() && !(f.call.Done? && f.write.TakesEffect())
    else
      var f := p.faults.stale(u);
      p.t.hard && f.readable && f.call.TakesEffect() && !f.write.TakesEffect()
  }

  lemma EventTears(c: Cell, t: Target, u: string, data: Content, listed: Option<Digest>, f: UidFates)
    requires CellAgrees(c) && (listed.Some? ==> ActiveCell(c) && listed.value == c.row.value.hash)
    ensures CellAgrees(EventCell(c, t, u, data, listed, f).0) <==>
            !(ActiveCell(c) && c.row.value.hash != HashContent(data)
              && f.readable && f.call.TakesEffect() && !(f.call.Done? && f.write.TakesEffect()))
  {
  }

  lemma StaleTears(c: Cell, t: Target, f: UidFates)
    requires CellAgrees(c) && ActiveCell(c)
    ensures CellAgrees(StaleCell(c, t, c.row.value.hash, f).0) <==>
            !(t.hard && f.readable && f.call.TakesEffect() && !f.write.TakesEffect())
  {
  }

  lemma AgreesAt(w: World, t: Target, s: Step, u: string)
    requires ProperRows(w.rows, t) && ValidStep(w, t, s) && CellAgrees(CellAt(w, t, u))
    ensures var r := RunOf(w, s);
            CellAgrees(CellAt(r.world, t, u)) <==> !(u in Uids(r.trace) && TornAt(w, s.plan, u))
  {
    StepAt(w, t, s, u);
    var c, p := CellAt(w, t, u), s.plan;
    if u in Uids(RunOf(w, s).trace) {
      if u in ListedBy(w, p) {
        ListedHasRow(w, p, u);
      }
      if u in p.events {
        EventTears(c, p.t, u, p.events[u], Get(ListedBy(w, p), u), p.faults.event(u));
      } else {
        StaleTears(c, p.t, p.faults.stale(u));
      }
    }
  }

  /** A run keeps "every active row describes its remote copy" exactly when no visit of it is torn. */
  lemma AgreementKept(w: World, t: Target, s: Step)
    requires ProperRows(w.rows, t) && ValidStep(w, t, s) && Agrees(w, t)
    ensures var r := RunOf(w, s);
            Agrees(r.world, t) <==> forall u <- Uids(r.trace) :: !TornAt(w, s.plan, u)
  {
    var r := RunOf(w, s);
    forall u
      ensures CellAgrees(CellAt(r.world, t, u)) <==> !(u in Uids(r.trace) && TornAt(w, s.plan, u))
    {
      assert CellAgrees(CellAt(w, t, u));
      AgreesAt(w, t, s, u);
    }
  }

  /** Failing remote calls have no effect, and a store write that follows an effective one takes effect. */
  ghost predicate Whole(f: Faults) {
    forall u ::
      && !f.event(u).call.Unacked? && (f.event(u).call.Done? ==> f.event(u).write.TakesEffect())
      && (f.stale(u).call.TakesEffect() ==> f.stale(u).write.TakesEffect())
  }

  /** Agreement over whole histories: any sequence of runs without torn visits keeps it. */
  lemma {:induction false} AgreementForever(w: World, t: Target, h: seq<Step>)
    requires ProperRows(w.rows, t) && ValidHistory(w, t, h) && Agrees(w, t)
    requires forall s <- h :: Whole(s.plan.faults)
    ensures Agrees(EndOf(w, Runs(w, t, h)), t)
    decreases |h|
  {
    if h != [] {
      var s := h[0];
      var r := RunOf(w, s);
      StepAt(w, t, s, "");
      AgreementKept(w, t, s);
      forall u ensures !TornAt(w, s.plan, u) {
        var f := s.plan.faults;
        assert !f.event(u).call.Unacked? && (f.event(u).call.Done? ==> f.event(u).write.TakesEffect());
      }
      AgreementForever(r.world, t, h[1..]);
      EndOfRest(w, t, h);
    }
  }

  lemma EventArrives(c: Cell, t: Target, u: string, data: Content, listed: Option<Digest>, f: UidFates)
    requires CellAgrees(c) && (listed.Some? ==> ActiveCell(c) && listed.value == c.row.value.hash)
    requires !EventCell(c, t, u, data, listed, f).1.Fatal()
    ensures EventCell(c, t, u, data, listed, f).0.res == Some(data)
  {
  }

  /** What a successful run over an agreeing store is for: every event is at the destination with its content. */
  lemma EventsArrive(w: World, t: Target, s: Step, u: string)
    requires ProperRows(w.rows, t) && ValidStep(w, t, s) && Agrees(w, t) && RunOf(w, s).ok
    requires u in s.plan.events
    ensures CellAt(RunOf(w, s).world, t, u).res == Some(s.plan.events[u])
  {
    var p := s.plan;
    ProperRowsElsewhere(w, t, p.t);
    RunSettles(w, p, s.order, s.staleOrder);
    var w' := RunOf(w, s).world;
    assert CellAt(w', p.t, u) == Expected(w, p, u).0 && !Expected(w, p, u).1.Fatal();
    assert CellAgrees(CellAt(w, t, u));
    if u in ListedBy(w, p) {
      ListedHasRow(w, p, u);
    }
    EventArrives(CellAt(w, p.t, u), p.t, u, p.events[u], Get(ListedBy(w, p), u), p.faults.event(u));
    ProperRowsElsewhere(w', t, p.t);
  }

  // ---------------------------------------------------------------- drift, a witness

  lemma HistoryCons(w: World, t: Target, s: Step, h: seq<Step>)
    requires ValidStep(w, t, s) && ValidHistory(RunOf(w, s).world, t, h)
    ensures ValidHistory(w, t, [s] + h)
    ensures Runs(w, t, [s] + h) == [RunOf(w, s)] + Runs(RunOf(w, s).world, t, h)
  {
    assert ([s] + h)[0] == s && ([s] + h)[1..] == h;
  }

  ghost function LostWrite(t: Target, u: string, b: Content): Plan {
    Plan(t, map[u := b], Faults(Rows({}), _ => UidFates(true, Done, Refused), _ => GOOD))
  }

  /** The store says `a`, the calendar holds `data`. */
  function DriftWorld(t: Target, u: string, a: Content, data: Content, remote: map<string, Content>): World {
    World(map[Key(u, t.name) := FreshRow(t, u, a)], remote[HrefFor(t.base, u) := data])
  }

  ghost predicate DriftInputs(t: Target, u: string, a: Content, b: Content) {
    u != "" && a.uid == u && b.uid == u && a != b && Selected(u, t.prefix)
  }

  lemma DriftCreate(t: Target, u: string, a: Content, remote: map<string, Content>)
    requires u != "" && a.uid == u
    ensures var w, s := World(map[], remote), Step(Undisturbed(t, map[u := a]), [u], []);
            ValidStep(w, t, s) && RunOf(w, s) == Run(DriftWorld(t, u, a, a, remote), [Entry(u, Created)], true)
  {
    var w, good := World(map[], remote), Undisturbed(t, map[u := a]);
    assert ListedBy(w, good) == map[];
    OneEventRun(w, good, u, []);
  }

  lemma DriftUpdate(t: Target, u: string, a: Content, b: Content, remote: map<string, Content>)
    requires DriftInputs(t, u, a, b)
    ensures var w, s := DriftWorld(t, u, a, a, remote), Step(LostWrite(t, u, b), [u], [u]);
            ValidStep(w, t, s) && RunOf(w, s) == Run(DriftWorld(t, u, a, b, remote), [Entry(u, WriteFailed)], false)
  {
    var w, bad := DriftWorld(t, u, a, a, remote), LostWrite(t, u, b);
    OneRowListed(w, bad, u, FreshRow(t, u, a));
    OneEventRun(w, bad, u, [u]);
    assert remote[HrefFor(t.base, u) := a][HrefFor(t.base, u) := b] == remote[HrefFor(t.base, u) := b];
  }

  lemma DriftRevert(t: Target, u: string, a: Content, b: Content, remote: map<string, Content>)
    requires DriftInputs(t, u, a, b)
    ensures var w, s := DriftWorld(t, u, a, b, remote), Step(Undisturbed(t, map[u := a]), [u], [u]);
            ValidStep(w, t, s) && RunOf(w, s) == Run(w, [Entry(u, Unchanged)], true)
  {
    var w, good := DriftWorld(t, u, a, b, remote), Undisturbed(t, map[u := a]);
    OneRowListed(w, good, u, FreshRow(t, u, a));
    OneEventRun(w, good, u, [u]);
  }

  /** Agreement can be lost for good without any error being reported: an update reaches the calendar, its row is not
      written, and the event then reverts. The third run, undisturbed and successful, sees nothing to do,
      and the calendar keeps the wrong content. */
  lemma Drift(t: Target, u: string, a: Content, b: Content, remote: map<string, Content>)
    requires DriftInputs(t, u, a, b)
    ensures var s1 := Step(Undisturbed(t, map[u := a]), [u], []);
            var s2 := Step(LostWrite(t, u, b), [u], [u]);
            var s3 := Step(Undisturbed(t, map[u := a]), [u], [u]);
            var h := [s1] + ([s2] + ([s3] + []));
            && ValidHistory(World(map[], remote), t, h)
            && var rs := Runs(World(map[], remote), t, h);
            && rs[0].ok && !rs[1].ok && rs[2].ok
            && rs[2].trace == [Entry(u, Unchanged)]
            && Get(rs[2].world.remote, HrefFor(t.base, u)) == Some(b)
  {
    var s1 := Step(Undisturbed(t, map[u := a]), [u], []);
    var s2 := Step(LostWrite(t, u, b), [u], [u]);
    var s3 := Step(Undisturbed(t, map[u := a]), [u], [u]);
    DriftCreate(t, u, a, remote);
    DriftUpdate(t, u, a, b, remote);
    DriftRevert(t, u, a, b, remote);
    HistoryCons(DriftWorld(t, u, a, b, remote), t, s3, []);
    HistoryCons(DriftWorld(t, u, a, a, remote), t, s2, [s3] + []);
    HistoryCons(World(map[], remote), t, s1, [s2] + ([s3] + []));
  }

  lemma OneRowListed(w: World, p: Plan, u: string, row: Row)
    requires w.rows == map[Key(u, p.t.name) := row] && !row.deleted && Selected(u, p.t.prefix)
    requires p.faults.listing == Rows({})
    ensures ListedBy(w, p) == map[u := row.hash]
  {
    forall x ensures x in ListedBy(w, p) <==> x == u {
      ActiveIs(w, p.t, x);
      ListedIs(w, p, x);
    }
    ActiveIs(w, p.t, u);
  }

  /** A run over a single event, with nothing stale. */
  lemma OneEventRun(w: World, p: Plan, u: string, staleOrder: seq<string>)
    requires p.events.Keys == {u} && p.faults.listing.Rows?
    requires ListedBy(w, p).Keys == Elements(staleOrder) && (staleOrder == [] || staleOrder == [u])
    ensures Walks(w, p, [u], staleOrder)
    ensures var (w', v) := EventStep(w, p.t, u, p.events[u], ListedBy(w, p), p.faults.event(u));
            SyncDestination(w, p, [u], staleOrder) == Run(w', [Entry(u, v)], !v.Fatal())
  {
    var (w', v) := EventStep(w, p.t, u, p.events[u], ListedBy(w, p), p.faults.event(u));
    assert EventLoop(w', p, [u][1..], ListedBy(w, p)) == Run(w', [], true);
    if staleOrder == [u] {
      assert StaleLoop(w', p, [u][1..], ListedBy(w, p)) == Run(w', [], true);
    }
  }

  // ---------------------------------------------------------------- orphans

  /** Resources of this collection that are not as the first run found them and that no row knows of. */
  function Orphans(w0: World, w: World, t: Target): set<string> {
    set h | h in w.remote && h == HrefFor(t.base, UidOfHref(t.base, h))
            && Get(w.remote, h) != Get(w0.remote, h) && Key(UidOfHref(t.base, h), t.name) !in w.rows
  }

  function Failures(rs: seq<Run>): nat {
    if rs == [] then 0 else (if rs[0].ok then 0 else 1) + Failures(rs[1..])
  }

  /** A visit that changes the resource of a UID without row, and leaves it without, stops the run. */
  lemma OrphaningIsFatal(w: World, p: Plan, u: string)
    requires var c' := Expected(w, p, u).0; c'.row.None? && c'.res != CellAt(w, p.t, u).res
    ensures Expected(w, p, u).1.Fatal()
  {
    VisitKeepsRow(w, p, u);
    if u in ListedBy(w, p) {
      ListedHasRow(w, p, u);
    }
  }

  lemma FatalIsLast(trace: seq<Entry>, u: string, v: Verdict)
    requires StopsAtFatal(trace) && Entry(u, v) in trace && v.Fatal()
    ensures trace != [] && trace[|trace| - 1].uid == u
  {
    var i :| 0 <= i < |trace| && trace[i] == Entry(u, v);
  }

  lemma StopsStep(w: World, t: Target, s: Step)
    requires ProperRows(w.rows, t) && ValidStep(w, t, s)
    ensures var r := RunOf(w, s);
            StopsAtFatal(r.trace) && (r.ok ==> forall e <- r.trace :: !e.verdict.Fatal())
  {
    if s.plan.faults.listing.Rows? {
      ProperRowsElsewhere(w, t, s.plan.t);
      RunFollows(w, s.plan, s.order, s.staleOrder);
    }
  }

  /** A UID whose resource a run changes and leaves without row is the one the run stopped at. */
  lemma {:induction false} OrphanedLast(w: World, t: Target, s: Step, u: string)
    requires ProperRows(w.rows, t) && ValidStep(w, t, s)
    requires var c' := CellAt(RunOf(w, s).world, t, u); c'.row.None? && c'.res != CellAt(w, t, u).res
    ensures var r := RunOf(w, s); !r.ok && r.trace != [] && r.trace[|r.trace| - 1].uid == u
  {
    StepAt(w, t, s, u);
    OrphaningIsFatal(w, s.plan, u);
    StopsStep(w, t, s);
    FatalIsLast(RunOf(w, s).trace, u, Expected(w, s.plan, u).1);
  }

  /** A run orphans at most the resource of the entry it stopped at. */
  lemma {:induction false} NewOrphan(w0: World, w: World, t: Target, s: Step, h: string)
    requires ProperRows(w.rows, t) && ValidStep(w, t, s)
    requires h in Orphans(w0, RunOf(w, s).world, t) && h !in Orphans(w0, w, t)
    ensures var r := RunOf(w, s);
            !r.ok && r.trace != [] && h == HrefFor(t.base, r.trace[|r.trace| - 1].uid)
  {
    var u := UidOfHref(t.base, h);
    if CellAt(w, t, u).row.Some? {
      RowsOnlyGrow(w, t, s, u);
    }
    OrphanedLast(w, t, s, u);
  }

  ghost function StoppedAt(r: Run, t: Target): (hrefs: set<string>)
    ensures |hrefs| <= if r.ok then 0 else 1
  {
    if !r.ok && r.trace != [] then {HrefFor(t.base, r.trace[|r.trace| - 1].uid)} else {}
  }

  lemma {:induction false} OrphansStep(w0: World, w: World, t: Target, s: Step)
    requires ProperRows(w.rows, t) && ValidStep(w, t, s)
    ensures |Orphans(w0, RunOf(w, s).world, t)| <= |Orphans(w0, w, t)| + if RunOf(w, s).ok then 0 else 1
  {
    var r := RunOf(w, s);
    forall h <- Orphans(w0, r.world, t) | h !in Orphans(w0, w, t) ensures h in StoppedAt(r, t) {
      NewOrphan(w0, w, t, s, h);
    }
    Subset(Orphans(w0, r.world, t), Orphans(w0, w, t) + StoppedAt(r, t));
  }

  lemma {:induction false} Subset<T>(a: set<T>, b: set<T>)
    requires a <= b
    ensures |a| <= |b|
  {
    if a != {} {
      var x :| x in a;
      Subset(a - {x}, b - {x});
    }
  }

  /** Over any history with any failures, the resources the runs wrote and no row knows of are at most as many as
      the runs that ended in error. */
  lemma {:induction false} OrphanBound(w0: World, w: World, t: Target, h: seq<Step>)
    requires ProperRows(w.rows, t) && ValidHistory(w, t, h)
    ensures var rs := Runs(w, t, h);
            |Orphans(w0, EndOf(w, rs), t)| <= |Orphans(w0, w, t)| + Failures(rs)
    decreases |h|
  {
    if h != [] {
      var r := RunOf(w, h[0]);
      StepAt(w, t, h[0], "");
      OrphansStep(w0, w, t, h[0]);
      OrphanBound(w0, r.world, t, h[1..]);
      EndOfRest(w, t, h);
    }
  }

  lemma OrphansFromStart(w: World, t: Target, h: seq<Step>)
    requires ProperRows(w.rows, t) && ValidHistory(w, t, h)
    ensures |Orphans(w, EndOf(w, Runs(w, t, h)), t)| <= Failures(Runs(w, t, h))
  {
    OrphanBound(w, w, t, h);
    assert Orphans(w, w, t) == {};
  }

  // ---------------------------------------------------------------- frame

  /** A run touches no row but its destination's, and of those only its events' and the active ones its prefix selects. */
  lemma RunTouches(w: World, t: Target, s: Step, k: Key)
    requires ProperRows(w.rows, t) && ValidStep(w, t, s)
    requires Get(RunOf(w, s).world.rows, k) != Get(w.rows, k)
    ensures k.dest == t.name
    ensures k.uid in s.plan.events || (k in w.rows && !w.rows[k].deleted && Selected(k.uid, s.plan.t.prefix))
  {
    StepAt(w, t, s, k.uid);
    StepStaysInside(w, t, s);
    if k.dest == t.name {
      assert k == Key(k.uid, t.name);
      assert CellAt(RunOf(w, s).world, t, k.uid).row != CellAt(w, t, k.uid).row;
      if k.uid !in s.plan.events {
        ListedHasRow(w, s.plan, k.uid);
      }
    }
  }

  // ---------------------------------------------------------------- the mirror

  /** The resource exists exactly while the row is active, and has its content. */
  predicate CellMirrors(c: Cell) {
    (c.res.Some? <==> ActiveCell(c)) && CellAgrees(c)
  }

  ghost predicate Mirrors(w: World, t: Target) {
    forall u :: CellMirrors(CellAt(w, t, u))
  }

  /** Hard deletes, and every visit is all or nothing. */
  ghost predicate AllOrNothing(p: Plan) {
    p.t.hard && forall u ::
      var e, s := p.faults.event(u), p.faults.stale(u);
      && !e.call.Unacked? && (e.call.Done? ==> e.write.TakesEffect())
      && (s.call.TakesEffect() <==> s.write.TakesEffect())
  }

  /** The visit has its effect on one side only: on the resource without the row, or on the row without the resource. A deletion that
      is soft does not even try the resource. */
  ghost predicate HalfDone(w: World, p: Plan, u: string) {
    var c := CellAt(w, p.t, u);
    if u in p.events then
      var f := p.faults.event(u);
      && f.readable && f.call.TakesEffect() && !(f.call.Done? && f.write.TakesEffect())
      && !(ActiveCell(c) && c.row.value.hash == HashContent(p.events[u]))
    else
      var f := p.faults.stale(u);
      f.readable && (p.t.hard && f.call.TakesEffect()) != f.write.TakesEffect()
  }

  lemma EventMirrors(c: Cell, t: Target, u: string, data: Content, listed: Option<Digest>, f: UidFates)
    requires CellMirrors(c) && (listed.Some? ==> ActiveCell(c) && listed.value == c.row.value.hash)
    ensures CellMirrors(EventCell(c, t, u, data, listed, f).0) <==>
            !(f.readable && f.call.TakesEffect() && !(f.call.Done? && f.write.TakesEffect())
              && !(ActiveCell(c) && c.row.value.hash == HashContent(data)))
  {
  }

  lemma StaleMirrors(c: Cell, t: Target, f: UidFates)
    requires CellMirrors(c) && ActiveCell(c)
    ensures CellMirrors(StaleCell(c, t, c.row.value.hash, f).0) <==>
            !(f.readable && (t.hard && f.call.TakesEffect()) != f.write.TakesEffect())
  {
  }

  lemma {:induction false} MirrorsAt(w: World, t: Target, s: Step, u: string)
    requires ProperRows(w.rows, t) && ValidStep(w, t, s) && CellMirrors(CellAt(w, t, u))
    ensures var r := RunOf(w, s);
            CellMirrors(CellAt(r.world, t, u)) <==> !(u in Uids(r.trace) && HalfDone(w, s.plan, u))
  {
    StepAt(w, t, s, u);
    var c, p := CellAt(w, t, u), s.plan;
    if u in Uids(RunOf(w, s).trace) {
      if u in ListedBy(w, p) {
        ListedHasRow(w, p, u);
      }
      if u in p.events {
        EventMirrors(c, p.t, u, p.events[u], Get(ListedBy(w, p), u), p.faults.event(u));
      } else {
        StaleMirrors(c, p.t, p.faults.stale(u));
      }
    }
  }

  /** A run keeps the mirror exactly when no visit of it is half done. */
  lemma {:induction false} MirrorKept(w: World, t: Target, s: Step)
    requires ProperRows(w.rows, t) && ValidStep(w, t, s) && Mirrors(w, t)
    ensures var r := RunOf(w, s);
            Mirrors(r.world, t) <==> forall u <- Uids(r.trace) :: !HalfDone(w, s.plan, u)
  {
    var r := RunOf(w, s);
    forall u ensures CellMirrors(CellAt(r.world, t, u)) <==> !(u in Uids(r.trace) && HalfDone(w, s.plan, u)) {
      assert CellMirrors(CellAt(w, t, u));
      MirrorsAt(w, t, s, u);
    }
  }

  /** No visit in the whole history is half done. */
  ghost predicate NoneHalfDone(w: World, t: Target, h: seq<Step>)
    requires ValidHistory(w, t, h)
    decreases |h|
  {
    h == [] ||
    var r := RunOf(w, h[0]);
    (forall u <- Uids(r.trace) :: !HalfDone(w, h[0].plan, u)) && NoneHalfDone(r.world, t, h[1..])
  }

  /** All-or-nothing visits are not half done. */
  lemma {:induction false} AllOrNothingSuffices(w: World, t: Target, h: seq<Step>)
    requires ValidHistory(w, t, h) && forall s <- h :: AllOrNothing(s.plan)
    ensures NoneHalfDone(w, t, h)
    decreases |h|
  {
    if h != [] {
      var s := h[0];
      forall u ensures !HalfDone(w, s.plan, u) {
        var e, f := s.plan.faults.event(u), s.plan.faults.stale(u);
        assert !e.call.Unacked? && (e.call.Done? ==> e.write.TakesEffect()) && (f.call.TakesEffect() <==> f.write.TakesEffect());
      }
      AllOrNothingSuffices(RunOf(w, s).world, t, h[1..]);
    }
  }

  lemma {:induction false} MirrorsForever(w: World, t: Target, h: seq<Step>)
    requires ProperRows(w.rows, t) && ValidHistory(w, t, h) && Mirrors(w, t) && NoneHalfDone(w, t, h)
    ensures var w' := EndOf(w, Runs(w, t, h)); ProperRows(w'.rows, t) && Mirrors(w', t)
    decreases |h|
  {
    if h != [] {
      StepAt(w, t, h[0], "");
      MirrorKept(w, t, h[0]);
      MirrorsForever(RunOf(w, h[0]).world, t, h[1..]);
      EndOfRest(w, t, h);
    }
  }

  lemma {:induction false} CellHoldsEvent(w: World, t: Target, s: Step, u: string)
    requires ProperRows(w.rows, t) && ValidStep(w, t, s) && Mirrors(w, t) && RunOf(w, s).ok
    requires s.plan.faults.listing.Rows? && Missed(w, s.plan) == {} && Selected(u, s.plan.t.prefix)
    ensures var r := RunOf(w, s);
            CellAt(r.world, t, u).res == Get(s.plan.events, u) <==> !(u in Uids(r.trace) && HalfDone(w, s.plan, u))
  {
    var p, w' := s.plan, RunOf(w, s).world;
    assert CellMirrors(CellAt(w, t, u));
    MirrorsAt(w, t, s, u);
    ProperRowsElsewhere(w, t, p.t);
    ProperRowsElsewhere(w', t, p.t);
    RunSettles(w, p, s.order, s.staleOrder);
    assert CellAt(w', p.t, u) == Expected(w, p, u).0 && !Expected(w, p, u).1.Fatal();
    if u in p.events {
      assert Agrees(w, t) by { assert forall x :: CellMirrors(CellAt(w, t, x)) ==> CellAgrees(CellAt(w, t, x)); }
      EventsArrive(w, t, s, u);
      EventSettled(w, p, u);
    } else {
      StaleSettled(w, p, u);
    }
  }

  /** What a successful run that misses nothing makes of a mirror: under its prefix the collection has exactly the run's events if
      and only if no visit under it was half done, that is, every stale resource was really deleted. */
  lemma {:induction false} MirrorIs(w: World, t: Target, s: Step)
    requires ProperRows(w.rows, t) && ValidStep(w, t, s) && Mirrors(w, t) && RunOf(w, s).ok
    requires s.plan.faults.listing.Rows? && Missed(w, s.plan) == {}
    ensures var r := RunOf(w, s);
            (forall u :: Selected(u, s.plan.t.prefix) ==> Get(r.world.remote, HrefFor(t.base, u)) == Get(s.plan.events, u)) <==>
            (forall u <- Uids(r.trace) :: Selected(u, s.plan.t.prefix) ==> !HalfDone(w, s.plan, u))
  {
    var r := RunOf(w, s);
    forall u | Selected(u, s.plan.t.prefix)
      ensures Get(r.world.remote, HrefFor(t.base, u)) == Get(s.plan.events, u) <==> !(u in Uids(r.trace) && HalfDone(w, s.plan, u))
    {
      CellHoldsEvent(w, t, s, u);
    }
  }

  /** What runs promise over any history. Start with an empty table and a collection without resources; let any runs go by of which no
      visit is half done; then a run that reports success and misses no stale row leaves, under its prefix, exactly its events in the
      collection, nothing missing, outdated or left over, if and only if it really deleted what it marks deleted. */
  lemma Mirror(remote: map<string, Content>, t: Target, h: seq<Step>, s: Step)
    requires forall u :: HrefFor(t.base, u) !in remote
    requires ValidHistory(World(map[], remote), t, h) && NoneHalfDone(World(map[], remote), t, h)
    requires var w := EndOf(World(map[], remote), Runs(World(map[], remote), t, h));
             && ValidStep(w, t, s) && RunOf(w, s).ok
             && s.plan.faults.listing.Rows? && Missed(w, s.plan) == {}
    ensures var w := EndOf(World(map[], remote), Runs(World(map[], remote), t, h));
            var r := RunOf(w, s);
            (forall u :: Selected(u, s.plan.t.prefix) ==> Get(r.world.remote, HrefFor(t.base, u)) == Get(s.plan.events, u)) <==>
            (forall u <- Uids(r.trace) :: Selected(u, s.plan.t.prefix) ==> !HalfDone(w, s.plan, u))
  {
    var w0 := World(map[], remote);
    assert Mirrors(w0, t);
    MirrorsForever(w0, t, h);
    MirrorIs(EndOf(w0, Runs(w0, t, h)), t, s);
  }
}
